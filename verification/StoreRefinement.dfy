/** When the two account stores accept the same operations with the same effect. */
module StoreRefinement {
  import opened Common
  import opened Uuid
  import opened Accounts
  import M = MemoryStore
  import P = PostgresStore

  ghost predicate DistinctLegs(legs: seq<Leg>) {
    forall i, j :: 0 <= i < j < |legs| ==> legs[i].account != legs[j].account
  }

  /** Credits go to existing active accounts. */
  ghost predicate CreditsLand(t: Table, legs: seq<Leg>) {
    forall l :: l in legs && l.delta >= 0 ==> l.account in t && t[l.account].isActive
  }

  ghost predicate NoOverdraft(t: Table) {
    forall id :: id in t && id != CLEARING ==> t[id].balance >= 0
  }

  // ---- what each store checks, in terms of the table before the operation ---------------

  /** Why the guarded update of leg `i` matches no row: its balance includes everything the legs before it moved. */
  function UpdateError(t: Table, legs: seq<Leg>, i: nat): Option<Error>
    requires i < |legs|
  {
    var id := legs[i].account;
    if id !in t then Some(AccountNotFound)
    else if !t[id].isActive then Some(AccountInactive)
    else if id != CLEARING && t[id].balance + Moved(legs[..i + 1], id) < 0 then Some(Error.InsufficientFunds)
    else None
  }

  function FirstUpdateError(t: Table, legs: seq<Leg>, n: nat): Option<Error>
    requires n <= |legs|
  {
    if n == 0 then None
    else if FirstUpdateError(t, legs, n - 1).Some? then FirstUpdateError(t, legs, n - 1)
    else UpdateError(t, legs, n - 1)
  }

  lemma {:induction false} UpdateErrorsOfPrefix(t: Table, legs: seq<Leg>, k: nat, n: nat)
    requires n <= k <= |legs|
    ensures FirstUpdateError(t, legs[..k], n) == FirstUpdateError(t, legs, n)
  {
    if n > 0 {
      UpdateErrorsOfPrefix(t, legs, k, n - 1);
      assert legs[..k][..n] == legs[..n];
    }
  }

  /** After updates that all matched, an account is listed as before and holds what the legs moved to it. */
  lemma {:induction false} UpdatedAccounts(t: Table, legs: seq<Leg>, now: int, id: UUID)
    requires P.GuardedUpdates(t, legs, now).Ok?
    ensures var u := P.GuardedUpdates(t, legs, now).value;
            && u == ApplyLegs(t, legs, now)
            && (id in u <==> id in t)
            && (id in t ==> u[id].isActive == t[id].isActive && u[id].balance == t[id].balance + Moved(legs, id))
  {
    if legs != [] {
      UpdatedAccounts(t, legs[..|legs| - 1], now, id);
    }
  }

  lemma {:induction false} LastUpdate(t: Table, legs: seq<Leg>, now: int)
    requires legs != [] && P.GuardedUpdates(t, legs[..|legs| - 1], now).Ok?
    ensures P.GuardedUpdates(t, legs, now)
         == (match UpdateError(t, legs, |legs| - 1)
             case Some(e) => Err(e)
             case None => Ok(ApplyLegs(t, legs, now)))
  {
    UpdatedAccounts(t, legs[..|legs| - 1], now, legs[|legs| - 1].account);
    assert legs[..|legs|] == legs;
  }

  /** Sequential guarded updates with rollback, for all legs and all tables: they fail with the first update error, and
      otherwise do what applying the legs in order does. */
  lemma {:induction false} UpdatesRefine(t: Table, legs: seq<Leg>, now: int)
    ensures P.GuardedUpdates(t, legs, now)
         == (match FirstUpdateError(t, legs, |legs|)
             case Some(e) => Err(e)
             case None => Ok(ApplyLegs(t, legs, now)))
  {
    if legs != [] {
      var n := |legs| - 1;
      UpdatesRefine(t, legs[..n], now);
      UpdateErrorsOfPrefix(t, legs, n, n);
      if FirstUpdateError(t, legs, n).None? {
        LastUpdate(t, legs, now);
      }
    }
  }

  lemma {:induction false} NoUpdateError(t: Table, legs: seq<Leg>, n: nat)
    requires n <= |legs|
    ensures FirstUpdateError(t, legs, n).None? <==> forall i :: 0 <= i < n ==> UpdateError(t, legs, i).None?
  {
    if n > 0 {
      NoUpdateError(t, legs, n - 1);
    }
  }

  lemma {:induction false} NoDebitError(t: Table, legs: seq<Leg>)
    ensures M.FirstDebitError(t, legs).None? <==> forall i :: 0 <= i < |legs| ==> M.DebitError(t, legs[i]).None?
  {
    if legs != [] {
      var before := legs[..|legs| - 1];
      NoDebitError(t, before);
      assert forall i :: 0 <= i < |before| ==> before[i] == legs[i];
      if forall i :: 0 <= i < |before| ==> M.DebitError(t, before[i]).None? {
        assert forall i :: 0 <= i < |before| ==> M.DebitError(t, legs[i]).None?;
      }
    }
  }

  // ---- when the stores accept alike ----------------------------------------------------------

  /** Leg `i` hits an existing active account that the legs up to it leave non-negative. */
  predicate Sustained(t: Table, legs: seq<Leg>, i: nat)
    requires i < |legs|
  {
    var id := legs[i].account;
    id in t && t[id].isActive && (id == CLEARING || t[id].balance + Moved(legs[..i + 1], id) >= 0)
  }

  /** The leg, taken alone, is a credit, or a debit of an existing active account that covers it. */
  predicate Covered(t: Table, l: Leg) {
    l.delta < 0 ==> l.account in t && t[l.account].isActive && (l.account == CLEARING || t[l.account].balance + l.delta >= 0)
  }

  ghost predicate AllSustained(t: Table, legs: seq<Leg>) {
    forall i :: 0 <= i < |legs| ==> Sustained(t, legs, i)
  }

  ghost predicate AllCovered(t: Table, legs: seq<Leg>) {
    forall i :: 0 <= i < |legs| ==> Covered(t, legs[i])
  }

  lemma SustainedIff(t: Table, legs: seq<Leg>, i: nat)
    requires i < |legs|
    ensures Sustained(t, legs, i) <==> UpdateError(t, legs, i).None?
  {
  }

  lemma {:induction false} AllSustainedIff(t: Table, legs: seq<Leg>)
    ensures AllSustained(t, legs) <==> FirstUpdateError(t, legs, |legs|).None?
  {
    NoUpdateError(t, legs, |legs|);
    forall i | 0 <= i < |legs| ensures Sustained(t, legs, i) <==> UpdateError(t, legs, i).None? {
      SustainedIff(t, legs, i);
    }
  }

  lemma {:induction false} AllCoveredIff(t: Table, legs: seq<Leg>)
    ensures AllCovered(t, legs) <==> M.FirstDebitError(t, legs).None?
  {
    NoDebitError(t, legs);
    assert forall i :: 0 <= i < |legs| ==> (Covered(t, legs[i]) <==> M.DebitError(t, legs[i]).None?);
  }

  /** For all legs and all tables: what the guarded updates accept, and what the validation in memory accepts. Both accept,
      or both reject, exactly when the two conditions are both true or both false. */
  lemma {:induction false} AcceptAlikeIff(t: Table, legs: seq<Leg>, now: int)
    ensures P.GuardedUpdates(t, legs, now).Ok? <==> AllSustained(t, legs)
    ensures M.FirstDebitError(t, legs).None? <==> AllCovered(t, legs)
    ensures (P.GuardedUpdates(t, legs, now).Ok? <==> M.FirstDebitError(t, legs).None?)
            <==> (AllSustained(t, legs) <==> AllCovered(t, legs))
  {
    UpdatesRefine(t, legs, now);
    AllSustainedIff(t, legs);
    AllCoveredIff(t, legs);
  }

  /** The error that fits an account which cannot take part: it is missing, inactive, or short of money. */
  function Reason(t: Table, id: UUID): Error {
    if id !in t then AccountNotFound else if !t[id].isActive then AccountInactive else Error.InsufficientFunds
  }

  /** The memory store answers with the reason of the first debit that is not covered. */
  lemma {:induction false} FirstUncovered(t: Table, legs: seq<Leg>, i: nat)
    requires i < |legs| && !Covered(t, legs[i]) && forall j :: 0 <= j < i ==> Covered(t, legs[j])
    ensures M.FirstDebitError(t, legs) == Some(Reason(t, legs[i].account))
  {
    AllCoveredIff(t, legs[..i]);
    assert legs[..i + 1][..i] == legs[..i];
    M.ErrorPersists(t, legs, i + 1);
  }

  lemma {:induction false} FirstUpdateErrorIs(t: Table, legs: seq<Leg>, i: nat, n: nat)
    requires i < n <= |legs| && !Sustained(t, legs, i) && forall j :: 0 <= j < i ==> Sustained(t, legs, j)
    ensures FirstUpdateError(t, legs, n) == Some(Reason(t, legs[i].account))
  {
    if n == i + 1 {
      forall j | 0 <= j < i ensures UpdateError(t, legs, j).None? {
        SustainedIff(t, legs, j);
      }
      NoUpdateError(t, legs, i);
    } else {
      FirstUpdateErrorIs(t, legs, i, n - 1);
    }
  }

  /** The database answers with the reason of the first leg that leaves its account short, or finds none to update. */
  lemma {:induction false} FirstUnsustained(t: Table, legs: seq<Leg>, now: int, i: nat)
    requires i < |legs| && !Sustained(t, legs, i) && forall j :: 0 <= j < i ==> Sustained(t, legs, j)
    ensures P.GuardedUpdates(t, legs, now) == Err(Reason(t, legs[i].account))
  {
    UpdatesRefine(t, legs, now);
    FirstUpdateErrorIs(t, legs, i, |legs|);
  }

  /** The error of the database store, with a fresh transaction identifier. */
  lemma DatabaseOutcome(p: P.Tables, op: TransferOp, g: Generated)
    requires P.WellKeyed(p.entries) && P.FreshTx(p, g.txID)
    ensures P.Outcome(p, op, g)
         == if DeltaSum(op.legs) != 0 then Some(UnbalancedLegs(DeltaSum(op.legs)))
            else
              var e := FirstUpdateError(p.accounts, op.legs, |op.legs|);
              if e.None? && P.HasReference(p.transfers, g.reference) then Some(DuplicateReference) else e
  {
    UpdatesRefine(p.accounts, op.legs, g.now);
    P.FreshInsert(p, op, g.txID);
  }

  lemma {:induction false} DebitErrorKinds(t: Table, legs: seq<Leg>)
    ensures var e := M.FirstDebitError(t, legs);
            e.None? || e.value in {AccountNotFound, AccountInactive, Error.InsufficientFunds}
  {
    if legs != [] {
      DebitErrorKinds(t, legs[..|legs| - 1]);
    }
  }

  /** The two stores give the same answer to an operation exactly when its legs do not balance, or the first leg each of them
      objects to gives the same error, or neither objects and the generated reference is new. */
  lemma StoresAgree(s: M.Store, p: P.Tables, op: TransferOp, g: Generated)
    requires s.accounts == p.accounts && P.WellKeyed(p.entries) && P.FreshTx(p, g.txID)
    ensures P.Outcome(p, op, g) == M.Outcome(s.accounts, op)
        <==> || DeltaSum(op.legs) != 0
             || (FirstUpdateError(p.accounts, op.legs, |op.legs|) == M.FirstDebitError(p.accounts, op.legs)
                 && (M.FirstDebitError(p.accounts, op.legs).None? ==> !P.HasReference(p.transfers, g.reference)))
    ensures P.Outcome(p, op, g).None? <==> DeltaSum(op.legs) == 0 && AllSustained(p.accounts, op.legs)
                                           && !P.HasReference(p.transfers, g.reference)
    ensures M.Outcome(s.accounts, op).None? <==> DeltaSum(op.legs) == 0 && AllCovered(s.accounts, op.legs)
  {
    DatabaseOutcome(p, op, g);
    DebitErrorKinds(p.accounts, op.legs);
    AllSustainedIff(p.accounts, op.legs);
    AllCoveredIff(p.accounts, op.legs);
  }

  /** Operations answered alike have the same effect; accepted ones append the same record, and rejected ones change nothing. */
  lemma SameEffect(s: M.Store, p: P.Tables, op: TransferOp, g: Generated)
    requires s.accounts == p.accounts
    ensures P.Outcome(p, op, g) == M.Outcome(s.accounts, op) ==> P.Execute(p, op, g).accounts == M.Execute(s, op, g).accounts
    ensures P.Outcome(p, op, g).Some? ==> P.Execute(p, op, g) == p
    ensures M.Outcome(s.accounts, op).Some? ==> M.Execute(s, op, g) == s
    ensures P.Outcome(p, op, g).None? ==> P.Execute(p, op, g).transfers == p.transfers + [TransferOf(op, g)]
    ensures M.Outcome(s.accounts, op).None? ==> M.Execute(s, op, g).transfers == s.transfers + [TransferOf(op, g)]
  {
    UpdatesRefine(p.accounts, op.legs, g.now);
  }

  // ---- distinct accounts -----------------------------------------------------------------------

  /** When no account repeats, credits land and nothing is overdrawn, the two stores object to the same legs. */
  lemma DistinctLegErrors(t: Table, legs: seq<Leg>, i: nat)
    requires DistinctLegs(legs) && CreditsLand(t, legs) && NoOverdraft(t) && i < |legs|
    ensures UpdateError(t, legs, i) == M.DebitError(t, legs[i])
  {
    var id, upTo := legs[i].account, legs[..i + 1];
    assert upTo[..i] == legs[..i];
    forall l | l in legs[..i] ensures l.account != id {
      var k :| 0 <= k < i && legs[k] == l;
    }
    NotMoved(legs[..i], id);
    assert legs[i] in legs;
  }

  lemma {:induction false} DistinctFirstErrors(t: Table, legs: seq<Leg>, n: nat)
    requires DistinctLegs(legs) && CreditsLand(t, legs) && NoOverdraft(t) && n <= |legs|
    ensures FirstUpdateError(t, legs, n) == M.FirstDebitError(t, legs[..n])
  {
    if n > 0 {
      DistinctFirstErrors(t, legs, n - 1);
      DistinctLegErrors(t, legs, n - 1);
      assert legs[..n][..n - 1] == legs[..n - 1];
    }
  }

  /** On operations with distinct accounts whose credits land, the two stores give the same answer exactly when the memory
      store rejects or the generated reference is new. */
  lemma StoresAgreeOnDistinctLegs(s: M.Store, p: P.Tables, op: TransferOp, g: Generated)
    requires s.accounts == p.accounts && P.WellKeyed(p.entries) && P.FreshTx(p, g.txID)
    requires DistinctLegs(op.legs) && CreditsLand(s.accounts, op.legs) && NoOverdraft(s.accounts)
    ensures M.Outcome(s.accounts, op).Some? ==> P.Outcome(p, op, g) == M.Outcome(s.accounts, op)
    ensures M.Outcome(s.accounts, op).None? ==>
              P.Outcome(p, op, g) == if P.HasReference(p.transfers, g.reference) then Some(DuplicateReference) else None
  {
    DatabaseOutcome(p, op, g);
    DistinctFirstErrors(p.accounts, op.legs, |op.legs|);
    assert op.legs[..|op.legs|] == op.legs;
  }

  // ---- inputs on which they differ --------------------------------------------------------------

  /** Two active accounts and their balances. */
  function Holdings(a: UUID, alice: int, b: UUID, bob: int): Table {
    map[a := Account(a, a, "SAR", alice, false, true, 0, 0), b := Account(b, b, "SAR", bob, false, true, 0, 0)]
  }

  function PlainOp(a: UUID, legs: seq<Leg>): TransferOp {
    TransferOp(a, Own, legs, None, None, "", "", 0, "SAR", "", [])
  }

  lemma {:induction false} OneMore(legs: seq<Leg>, k: nat, id: UUID)
    requires k < |legs|
    ensures k == 0 ==> DeltaSum(legs[..k]) == 0 && Moved(legs[..k], id) == 0
    ensures DeltaSum(legs[..k + 1]) == DeltaSum(legs[..k]) + legs[k].delta
    ensures Moved(legs[..k + 1], id) == Moved(legs[..k], id) + (if legs[k].account == id then legs[k].delta else 0)
  {
    assert legs[..k + 1][..k] == legs[..k];
  }

  /** Two debits of one account, each covered alone: 10 units do not cover 6 and then 6 more. */
  lemma {:induction false} RepeatedDebits(a: UUID, b: UUID, t: Table, legs: seq<Leg>)
    requires a != b && a != CLEARING && b != CLEARING
    requires t == Holdings(a, 10, b, 0) && legs == [Leg(a, -6), Leg(a, -6), Leg(b, 12)]
    ensures DeltaSum(legs) == 0 && AllCovered(t, legs)
    ensures FirstUpdateError(t, legs, |legs|) == Some(Error.InsufficientFunds)
  {
    OneMore(legs, 0, a);
    OneMore(legs, 1, a);
    OneMore(legs, 2, a);
    assert legs[..3] == legs;
    assert UpdateError(t, legs, 0) == None;
    assert UpdateError(t, legs, 1) == Some(Error.InsufficientFunds);
    assert FirstUpdateError(t, legs, 1) == None;
    assert FirstUpdateError(t, legs, 2) == Some(Error.InsufficientFunds);
  }

  /** Such an operation passes in memory only. */
  lemma StoresDifferOnRepeatedDebits(a: UUID, b: UUID, g: Generated)
    requires a != b && a != CLEARING && b != CLEARING
    ensures var t, op := Holdings(a, 10, b, 0), PlainOp(a, [Leg(a, -6), Leg(a, -6), Leg(b, 12)]);
            && NoOverdraft(t) && CreditsLand(t, op.legs) && !DistinctLegs(op.legs)
            && M.Outcome(t, op) == None
            && P.Outcome(P.Tables(t, [], [], []), op, g) == Some(Error.InsufficientFunds)
  {
    var t, op := Holdings(a, 10, b, 0), PlainOp(a, [Leg(a, -6), Leg(a, -6), Leg(b, 12)]);
    assert op.legs[0].account == op.legs[1].account;
    RepeatedDebits(a, b, t, op.legs);
    AllCoveredIff(t, op.legs);
    DatabaseOutcome(P.Tables(t, [], [], []), op, g);
  }

  /** A debit that only an earlier credit of the same operation covers. */
  lemma CreditComesFirst(a: UUID, b: UUID, t: Table, legs: seq<Leg>, k: nat)
    requires a != b && a != CLEARING && b != CLEARING && k < 4
    requires t == Holdings(a, 0, b, 10) && legs == [Leg(b, -5), Leg(a, 5), Leg(a, -5), Leg(b, 5)]
    ensures Sustained(t, legs, k)
  {
    OneMore(legs, 0, legs[k].account);
    OneMore(legs, 1, legs[k].account);
    OneMore(legs, 2, legs[k].account);
    OneMore(legs, 3, legs[k].account);
  }

  lemma {:induction false} CoveredByCredit(a: UUID, b: UUID, t: Table, legs: seq<Leg>)
    requires a != b && a != CLEARING && b != CLEARING
    requires t == Holdings(a, 0, b, 10) && legs == [Leg(b, -5), Leg(a, 5), Leg(a, -5), Leg(b, 5)]
    ensures DeltaSum(legs) == 0 && AllSustained(t, legs)
    ensures M.FirstDebitError(t, legs) == Some(Error.InsufficientFunds)
  {
    forall k | 0 <= k < 4 ensures Sustained(t, legs, k) {
      CreditComesFirst(a, b, t, legs, k);
    }
    assert DeltaSum(legs[..4]) == 0 by {
      OneMore(legs, 0, a);
      OneMore(legs, 1, a);
      OneMore(legs, 2, a);
      OneMore(legs, 3, a);
    }
    assert legs[..4] == legs;
    assert M.DebitError(t, legs[0]) == None && M.DebitError(t, legs[1]) == None;
    FirstDebitErrorAt(t, legs, 2);
  }

  lemma {:induction false} NoDebitErrorBefore(t: Table, legs: seq<Leg>, k: nat)
    requires k <= |legs| && forall i :: 0 <= i < k ==> M.DebitError(t, legs[i]).None?
    ensures M.FirstDebitError(t, legs[..k]).None?
  {
    if k > 0 {
      NoDebitErrorBefore(t, legs, k - 1);
      assert legs[..k][..k - 1] == legs[..k - 1];
    }
  }

  lemma {:induction false} FirstDebitErrorAt(t: Table, legs: seq<Leg>, k: nat)
    requires k < |legs| && M.DebitError(t, legs[k]).Some? && forall i :: 0 <= i < k ==> M.DebitError(t, legs[i]).None?
    ensures M.FirstDebitError(t, legs) == M.DebitError(t, legs[k])
  {
    NoDebitErrorBefore(t, legs, k);
    assert legs[..k + 1][..k] == legs[..k];
    M.ErrorPersists(t, legs, k + 1);
  }

  /** Such an operation passes in the database only. */
  lemma StoresDifferOnCoveredDebit(a: UUID, b: UUID, g: Generated)
    requires a != b && a != CLEARING && b != CLEARING
    ensures var t, op := Holdings(a, 0, b, 10), PlainOp(a, [Leg(b, -5), Leg(a, 5), Leg(a, -5), Leg(b, 5)]);
            && NoOverdraft(t) && CreditsLand(t, op.legs) && !DistinctLegs(op.legs)
            && M.Outcome(t, op) == Some(Error.InsufficientFunds)
            && P.Outcome(P.Tables(t, [], [], []), op, g) == None
  {
    var t, op := Holdings(a, 0, b, 10), PlainOp(a, [Leg(b, -5), Leg(a, 5), Leg(a, -5), Leg(b, 5)]);
    assert op.legs[0].account == op.legs[3].account;
    CoveredByCredit(a, b, t, op.legs);
    AllSustainedIff(t, op.legs);
    DatabaseOutcome(P.Tables(t, [], [], []), op, g);
  }
}
