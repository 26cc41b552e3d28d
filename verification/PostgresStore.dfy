/** The database-backed account store: guarded updates, ledger batch, transfer row and outbox row in one transaction. */
module PostgresStore {
  import opened Common
  import opened Uuid
  import opened Accounts
  import opened IdempotencyKeys
  import opened Domain

  datatype Entry = Entry(txID: UUID, account: UUID, kind: EntryType, amount: int, currency: string, key: string)

  datatype Event = Event(txID: UUID, payload: Transfer, published: bool)

  datatype Tables = Tables(accounts: Table, entries: seq<Entry>, transfers: seq<Transfer>, outbox: seq<Event>)

  /** The conditional update of one balance: the account must exist, be active and not go negative, except clearing. */
  function GuardedUpdate(t: Table, l: Leg, now: int): (r: Result<Table, Error>)
    ensures r.Err? ==> r.error in {AccountNotFound, AccountInactive, Error.InsufficientFunds}
  {
    if l.account !in t then Err(AccountNotFound)
    else if !t[l.account].isActive then Err(AccountInactive)
    else if t[l.account].balance + l.delta >= 0 || l.account == CLEARING then Ok(Adjust(t, l, now))
    else Err(Error.InsufficientFunds)
  }

  /** The updates in order, up to the first that matches no row. */
  function GuardedUpdates(t: Table, legs: seq<Leg>, now: int): (r: Result<Table, Error>)
    ensures r.Err? ==> r.error in {AccountNotFound, AccountInactive, Error.InsufficientFunds}
  {
    if legs == [] then Ok(t)
    else
      match GuardedUpdates(t, legs[..|legs| - 1], now)
      case Err(e) => Err(e)
      case Ok(u) => GuardedUpdate(u, legs[|legs| - 1], now)
  }

  function EntryOf(op: TransferOp, tx: UUID, i: nat): Entry
    requires i < |op.legs|
  {
    var l := op.legs[i];
    Entry(tx, l.account, if l.delta < 0 then Debit else Credit, if l.delta < 0 then -l.delta else l.delta, op.currency,
          EntryKey(op.key, tx, i))
  }

  function EntriesOf(op: TransferOp, tx: UUID): seq<Entry> {
    seq(|op.legs|, i requires 0 <= i < |op.legs| => EntryOf(op, tx, i))
  }

  predicate HasKey(es: seq<Entry>, key: string) {
    exists i :: 0 <= i < |es| && es[i].key == key
  }

  predicate HasReference(ts: seq<Transfer>, reference: string) {
    exists i :: 0 <= i < |ts| && ts[i].reference == reference
  }

  /** Inserts rows under the UNIQUE constraint on their key. */
  function InsertAll(es: seq<Entry>, rows: seq<Entry>): Option<seq<Entry>> {
    if rows == [] then Some(es)
    else
      match InsertAll(es, rows[..|rows| - 1])
      case None => None
      case Some(fs) => if HasKey(fs, rows[|rows| - 1].key) then None else Some(fs + [rows[|rows| - 1]])
  }

  /** The error the transaction ends with, if any. */
  function Outcome(p: Tables, op: TransferOp, g: Generated): Option<Error> {
    if DeltaSum(op.legs) != 0 then Some(UnbalancedLegs(DeltaSum(op.legs)))
    else
      match GuardedUpdates(p.accounts, op.legs, g.now)
      case Err(e) => Some(e)
      case Ok(_) =>
        if InsertAll(p.entries, EntriesOf(op, g.txID)).None? then Some(DuplicateKey)
        else if HasReference(p.transfers, g.reference) then Some(DuplicateReference)
        else None
  }

  function Execute(p: Tables, op: TransferOp, g: Generated): Tables {
    if Outcome(p, op, g).Some? then p
    else Tables(GuardedUpdates(p.accounts, op.legs, g.now).value,
                InsertAll(p.entries, EntriesOf(op, g.txID)).value,
                p.transfers + [TransferOf(op, g)],
                p.outbox + [Event(g.txID, TransferOf(op, g), false)])
  }

  lemma {:induction false} UpdateErrorPersists(t: Table, legs: seq<Leg>, now: int, i: nat)
    requires i <= |legs| && GuardedUpdates(t, legs[..i], now).Err?
    ensures GuardedUpdates(t, legs, now) == GuardedUpdates(t, legs[..i], now)
    decreases |legs| - i
  {
    if i == |legs| {
      assert legs[..i] == legs;
    } else {
      assert legs[..i + 1][..i] == legs[..i];
      UpdateErrorPersists(t, legs, now, i + 1);
    }
  }

  lemma {:induction false} InsertFailurePersists(es: seq<Entry>, rows: seq<Entry>, i: nat)
    requires i <= |rows| && InsertAll(es, rows[..i]).None?
    ensures InsertAll(es, rows).None?
    decreases |rows| - i
  {
    if i == |rows| {
      assert rows[..i] == rows;
    } else {
      assert rows[..i + 1][..i] == rows[..i];
      InsertFailurePersists(es, rows, i + 1);
    }
  }

  class PostgresStore {
    var accounts: Table
    var entries: seq<Entry>
    var transfers: seq<Transfer>
    var outbox: seq<Event>

    function Snapshot(): Tables
      reads this
    {
      Tables.Tables(accounts, entries, transfers, outbox)
    }

    constructor (accounts: Table)
      ensures Snapshot() == Tables.Tables(accounts, [], [], [])
    {
      this.accounts, entries, transfers, outbox := accounts, [], [], [];
    }

    /** The updates of one transaction, on its own view of the table. */
    method UpdateBalances(legs: seq<Leg>, now: int) returns (r: Result<Table, Error>)
      ensures r == GuardedUpdates(accounts, legs, now)
    {
      var view := accounts;
      for i := 0 to |legs|
        invariant GuardedUpdates(accounts, legs[..i], now) == Ok(view)
      {
        assert legs[..i + 1][..i] == legs[..i];
        var u := GuardedUpdate(view, legs[i], now);
        if u.Err? {
          UpdateErrorPersists(accounts, legs, now, i + 1);
          return u;
        }
        view := u.value;
      }
      assert legs[..|legs|] == legs;
      r := Ok(view);
    }

    method InsertEntries(rows: seq<Entry>) returns (r: Option<seq<Entry>>)
      ensures r == InsertAll(entries, rows)
    {
      var view := entries;
      for i := 0 to |rows|
        invariant InsertAll(entries, rows[..i]) == Some(view)
      {
        assert rows[..i + 1][..i] == rows[..i];
        if HasKey(view, rows[i].key) {
          InsertFailurePersists(entries, rows, i + 1);
          return None;
        }
        view := view + [rows[i]];
      }
      assert rows[..|rows|] == rows;
      r := Some(view);
    }

    /** Any failure rolls the whole transaction back; otherwise all four tables change together. */
    method ExecuteTransfer(op: TransferOp, g: Generated) returns (r: Result<Transfer, Error>)
      modifies this
      ensures Snapshot() == Execute(old(Snapshot()), op, g)
      ensures r == (match Outcome(old(Snapshot()), op, g)
                    case Some(e) => Err(e)
                    case None => Ok(TransferOf(op, g)))
    {
      if DeltaSum(op.legs) != 0 {
        return Err(UnbalancedLegs(DeltaSum(op.legs)));
      }
      var balances := UpdateBalances(op.legs, g.now);
      if balances.Err? {
        return Err(balances.error);
      }
      var rows := InsertEntries(EntriesOf(op, g.txID));
      if rows.None? {
        return Err(DuplicateKey);
      }
      if HasReference(transfers, g.reference) {
        return Err(DuplicateReference);
      }
      var transfer := TransferOf(op, g);
      accounts := balances.value;
      entries := rows.value;
      transfers := transfers + [transfer];
      outbox := outbox + [Event(g.txID, transfer, false)];
      r := Ok(transfer);
    }
  }

  /** What a committed call appends: the transfer with the operation's fields, and an unpublished event that carries it. */
  lemma CommittedRows(p: Tables, op: TransferOp, g: Generated)
    requires Outcome(p, op, g).None?
    ensures var r := Transfer(g.id, g.txID, op.userID, op.kind, op.from, op.to, op.counterparty, op.note, op.amount, op.currency,
                              g.reference, g.now, op.splits);
            && Execute(p, op, g).transfers == p.transfers + [r]
            && Execute(p, op, g).outbox == p.outbox + [Event(g.txID, r, false)]
  {
  }

  // ---- the unique keys never collide ------------------------------------------------

  /** Every stored entry carries the key of its transaction and position. */
  ghost predicate WellKeyed(es: seq<Entry>) {
    forall i :: 0 <= i < |es| ==> KeyedFor(es[i], es[i].txID)
  }

  ghost predicate KeyedFor(e: Entry, tx: UUID) {
    exists k: string, n: nat :: e.key == EntryKey(k, tx, n)
  }

  ghost predicate FreshTx(p: Tables, tx: UUID) {
    (forall i :: 0 <= i < |p.entries| ==> p.entries[i].txID != tx) && (forall i :: 0 <= i < |p.transfers| ==> p.transfers[i].txID != tx)
  }

  lemma KeyIsNew(es: seq<Entry>, op: TransferOp, tx: UUID, n: nat)
    requires WellKeyed(es) && n < |op.legs| && forall i :: 0 <= i < |es| ==> es[i].txID != tx
    ensures !HasKey(es + EntriesOf(op, tx)[..n], EntriesOf(op, tx)[n].key)
  {
    var rows := EntriesOf(op, tx);
    var fs := es + rows[..n];
    if i :| 0 <= i < |fs| && fs[i].key == rows[n].key {
      if i < |es| {
        assert KeyedFor(es[i], es[i].txID);
        var k: string, m: nat :| es[i].key == EntryKey(k, es[i].txID, m);
        EntryKeysNeverCollide(k, es[i].txID, m, op.key, tx, n);
      } else {
        EntryKeysNeverCollide(op.key, tx, i - |es|, op.key, tx, n);
      }
    }
  }

  /** With a fresh transaction identifier the keys of a batch are all new, whatever idempotency key the client sent. */
  lemma {:induction false} InsertSucceeds(es: seq<Entry>, op: TransferOp, tx: UUID, n: nat)
    requires WellKeyed(es) && n <= |op.legs| && forall i :: 0 <= i < |es| ==> es[i].txID != tx
    ensures InsertAll(es, EntriesOf(op, tx)[..n]) == Some(es + EntriesOf(op, tx)[..n])
  {
    var rows := EntriesOf(op, tx);
    if n == 0 {
      assert rows[..0] == [] && es + [] == es;
    } else {
      InsertSucceeds(es, op, tx, n - 1);
      KeyIsNew(es, op, tx, n - 1);
      assert rows[..n][..n - 1] == rows[..n - 1];
      assert es + rows[..n - 1] + [rows[n - 1]] == es + rows[..n];
    }
  }

  lemma FreshInsert(p: Tables, op: TransferOp, tx: UUID)
    requires WellKeyed(p.entries) && FreshTx(p, tx)
    ensures InsertAll(p.entries, EntriesOf(op, tx)) == Some(p.entries + EntriesOf(op, tx))
  {
    InsertSucceeds(p.entries, op, tx, |op.legs|);
    assert EntriesOf(op, tx)[..|op.legs|] == EntriesOf(op, tx);
  }

  // ---- balances and ledger --------------------------------------------------------------

  function Signed(e: Entry): int {
    if e.kind == Credit then e.amount else -e.amount
  }

  /** Credits minus debits of one account. */
  function Posted(es: seq<Entry>, account: UUID): int {
    if es == [] then 0
    else Posted(es[..|es| - 1], account) + (if es[|es| - 1].account == account then Signed(es[|es| - 1]) else 0)
  }

  /** Credits minus debits of one transaction. */
  function Imbalance(es: seq<Entry>, tx: UUID): int {
    if es == [] then 0
    else Imbalance(es[..|es| - 1], tx) + (if es[|es| - 1].txID == tx then Signed(es[|es| - 1]) else 0)
  }

  lemma {:induction false} PostedConcat(a: seq<Entry>, b: seq<Entry>, id: UUID)
    ensures Posted(a + b, id) == Posted(a, id) + Posted(b, id)
    ensures Imbalance(a + b, id) == Imbalance(a, id) + Imbalance(b, id)
  {
    if b == [] {
      assert a + b == a;
    } else {
      PostedConcat(a, b[..|b| - 1], id);
      assert (a + b)[..|a + b| - 1] == a + b[..|b| - 1];
    }
  }

  lemma {:induction false} EntriesPost(op: TransferOp, tx: UUID, n: nat, id: UUID)
    requires n <= |op.legs|
    ensures Posted(EntriesOf(op, tx)[..n], id) == Moved(op.legs[..n], id)
    ensures Imbalance(EntriesOf(op, tx)[..n], id) == if id == tx then DeltaSum(op.legs[..n]) else 0
  {
    if n > 0 {
      EntriesPost(op, tx, n - 1, id);
      assert EntriesOf(op, tx)[..n][..n - 1] == EntriesOf(op, tx)[..n - 1];
      assert op.legs[..n][..n - 1] == op.legs[..n - 1];
    }
  }

  lemma {:induction false} EntriesPostAll(op: TransferOp, tx: UUID, id: UUID)
    ensures Posted(EntriesOf(op, tx), id) == Moved(op.legs, id)
    ensures Imbalance(EntriesOf(op, tx), id) == if id == tx then DeltaSum(op.legs) else 0
  {
    EntriesPost(op, tx, |op.legs|, id);
    assert EntriesOf(op, tx)[..|op.legs|] == EntriesOf(op, tx) && op.legs[..|op.legs|] == op.legs;
  }

  lemma {:induction false} UpdatesMove(t: Table, legs: seq<Leg>, now: int, id: UUID)
    requires GuardedUpdates(t, legs, now).Ok?
    ensures BalanceOf(GuardedUpdates(t, legs, now).value, id) == BalanceOf(t, id) + Moved(legs, id)
  {
    if legs != [] {
      UpdatesMove(t, legs[..|legs| - 1], now, id);
    }
  }

  /** Transfer rows and outbox rows correspond one to one and carry distinct transactions; the ledger holds no others. */
  ghost predicate RowsMatch(p: Tables) {
    && |p.transfers| == |p.outbox|
    && (forall i :: 0 <= i < |p.transfers| ==> p.outbox[i].txID == p.transfers[i].txID && p.outbox[i].payload == p.transfers[i])
    && (forall i, j :: 0 <= i < j < |p.transfers| ==> p.transfers[i].txID != p.transfers[j].txID
                                                      && p.transfers[i].reference != p.transfers[j].reference)
    && (forall i :: 0 <= i < |p.entries| ==> exists j :: 0 <= j < |p.transfers| && p.transfers[j].txID == p.entries[i].txID)
  }

  ghost predicate AllBalanced(p: Tables) {
    forall tx: UUID :: Imbalance(p.entries, tx) == 0
  }

  ghost predicate Consistent(p: Tables) {
    WellKeyed(p.entries) && RowsMatch(p) && AllBalanced(p)
  }

  lemma CommitKeys(p: Tables, op: TransferOp, g: Generated)
    requires Consistent(p) && FreshTx(p, g.txID) && Outcome(p, op, g).None?
    ensures WellKeyed(Execute(p, op, g).entries)
    ensures Execute(p, op, g).entries == p.entries + EntriesOf(op, g.txID)
  {
    FreshInsert(p, op, g.txID);
    var es, rows := p.entries, EntriesOf(op, g.txID);
    var all: seq<Entry> := es + rows;
    forall i | 0 <= i < |all| ensures KeyedFor(all[i], all[i].txID) {
      if i < |es| {
        assert KeyedFor(es[i], es[i].txID);
      } else {
        assert rows[i - |es|].key == EntryKey(op.key, g.txID, i - |es|);
      }
    }
  }

  lemma RowsMatchNext(p: Tables, q: Tables, r: Transfer)
    requires RowsMatch(p)
    requires forall i :: 0 <= i < |p.transfers| ==> p.transfers[i].txID != r.txID && p.transfers[i].reference != r.reference
    requires q.transfers == p.transfers + [r] && |q.outbox| == |p.outbox| + 1 && p.outbox <= q.outbox
    requires q.outbox[|p.outbox|].txID == r.txID && q.outbox[|p.outbox|].payload == r
    requires p.entries <= q.entries
    requires forall i :: |p.entries| <= i < |q.entries| ==> q.entries[i].txID == r.txID
    ensures RowsMatch(q)
  {
    forall i | 0 <= i < |q.entries| ensures exists j :: 0 <= j < |q.transfers| && q.transfers[j].txID == q.entries[i].txID {
      if i < |p.entries| {
        var j :| 0 <= j < |p.transfers| && p.transfers[j].txID == p.entries[i].txID;
        assert q.transfers[j].txID == q.entries[i].txID;
      } else {
        assert q.transfers[|p.transfers|].txID == q.entries[i].txID;
      }
    }
  }

  lemma CommitRows(p: Tables, op: TransferOp, g: Generated)
    requires Consistent(p) && FreshTx(p, g.txID) && Outcome(p, op, g).None?
    ensures RowsMatch(Execute(p, op, g))
  {
    CommitKeys(p, op, g);
    RowsMatchNext(p, Execute(p, op, g), TransferOf(op, g));
  }

  /** A committed transfer keeps the tables consistent; for every account the balance moves by what the ledger records. */
  lemma {:induction false} ExecuteKeepsBooks(p: Tables, op: TransferOp, g: Generated, id: UUID)
    requires Consistent(p) && FreshTx(p, g.txID)
    ensures Consistent(Execute(p, op, g))
    ensures var q := Execute(p, op, g);
            BalanceOf(q.accounts, id) - Posted(q.entries, id) == BalanceOf(p.accounts, id) - Posted(p.entries, id)
    ensures Outcome(p, op, g) != Some(DuplicateKey)
  {
    FreshInsert(p, op, g.txID);
    if Outcome(p, op, g).None? {
      var q := Execute(p, op, g);
      CommitKeys(p, op, g);
      CommitRows(p, op, g);
      UpdatesMove(p.accounts, op.legs, g.now, id);
      EntriesPostAll(op, g.txID, id);
      PostedConcat(p.entries, EntriesOf(op, g.txID), id);
      forall tx: UUID ensures Imbalance(q.entries, tx) == 0 {
        EntriesPostAll(op, g.txID, tx);
        PostedConcat(p.entries, EntriesOf(op, g.txID), tx);
      }
    }
  }

  datatype Call = Call(op: TransferOp, g: Generated)

  function Run(p: Tables, calls: seq<Call>): Tables {
    if calls == [] then p
    else
      var last := calls[|calls| - 1];
      Execute(Run(p, calls[..|calls| - 1]), last.op, last.g)
  }

  ghost predicate FreshCalls(p: Tables, calls: seq<Call>) {
    && (forall i :: 0 <= i < |calls| ==> FreshTx(p, calls[i].g.txID))
    && (forall i, j :: 0 <= i < j < |calls| ==> calls[i].g.txID != calls[j].g.txID)
  }

  lemma ExecuteStaysFresh(p: Tables, op: TransferOp, g: Generated, tx: UUID)
    requires Consistent(p) && FreshTx(p, g.txID) && FreshTx(p, tx) && g.txID != tx
    ensures FreshTx(Execute(p, op, g), tx)
  {
    if Outcome(p, op, g).None? {
      CommitKeys(p, op, g);
    }
  }

  lemma {:induction false} RunStaysFresh(p: Tables, calls: seq<Call>, tx: UUID)
    requires Consistent(p) && FreshCalls(p, calls) && FreshTx(p, tx) && forall i :: 0 <= i < |calls| ==> calls[i].g.txID != tx
    ensures Consistent(Run(p, calls)) && FreshTx(Run(p, calls), tx)
  {
    if calls != [] {
      var before, last := calls[..|calls| - 1], calls[|calls| - 1];
      RunStaysFresh(p, before, tx);
      RunStaysFresh(p, before, last.g.txID);
      ExecuteKeepsBooks(Run(p, before), last.op, last.g, tx);
      ExecuteStaysFresh(Run(p, before), last.op, last.g, tx);
    }
  }

  /** Over every run: each balance is its initial value plus the credits minus the debits recorded since; every transaction in
      the ledger balances and has a transfer row; transfer rows and outbox rows correspond one to one; and the unique key is
      never violated. */
  lemma {:induction false} LedgerExplainsBalances(p: Tables, calls: seq<Call>, id: UUID)
    requires Consistent(p) && FreshCalls(p, calls)
    ensures var q := Run(p, calls);
            && Consistent(q)
            && BalanceOf(q.accounts, id) - Posted(q.entries, id) == BalanceOf(p.accounts, id) - Posted(p.entries, id)
  {
    if calls != [] {
      var before, last := calls[..|calls| - 1], calls[|calls| - 1];
      LedgerExplainsBalances(p, before, id);
      RunStaysFresh(p, before, last.g.txID);
      ExecuteKeepsBooks(Run(p, before), last.op, last.g, id);
    }
  }

  // ---- the entries of each transaction -------------------------------------------------

  /** The entries filed under one transaction, in order. */
  function OfTx(es: seq<Entry>, tx: UUID): seq<Entry> {
    if es == [] then []
    else OfTx(es[..|es| - 1], tx) + (if es[|es| - 1].txID == tx then [es[|es| - 1]] else [])
  }

  lemma {:induction false} OfTxConcat(a: seq<Entry>, b: seq<Entry>, tx: UUID)
    ensures OfTx(a + b, tx) == OfTx(a, tx) + OfTx(b, tx)
  {
    if b == [] {
      assert a + b == a;
    } else {
      OfTxConcat(a, b[..|b| - 1], tx);
      assert (a + b)[..|a + b| - 1] == a + b[..|b| - 1];
      Regroup(OfTx(a, tx), OfTx(b[..|b| - 1], tx), if b[|b| - 1].txID == tx then [b[|b| - 1]] else []);
    }
  }

  lemma {:induction false} OfTxAll(es: seq<Entry>, tx: UUID)
    requires forall i :: 0 <= i < |es| ==> es[i].txID == tx
    ensures OfTx(es, tx) == es
  {
    if es != [] {
      OfTxAll(es[..|es| - 1], tx);
    }
  }

  lemma {:induction false} OfTxNone(es: seq<Entry>, tx: UUID)
    requires forall i :: 0 <= i < |es| ==> es[i].txID != tx
    ensures OfTx(es, tx) == []
  {
    if es != [] {
      OfTxNone(es[..|es| - 1], tx);
    }
  }

  lemma {:induction false} OfTxOwn(op: TransferOp, tx: UUID, other: UUID)
    ensures OfTx(EntriesOf(op, tx), other) == if other == tx then EntriesOf(op, tx) else []
  {
    if other == tx {
      OfTxAll(EntriesOf(op, tx), tx);
    } else {
      OfTxNone(EntriesOf(op, tx), other);
    }
  }

  /** What one call files under a transaction: its own entries if it commits, and nothing under any other. */
  function Filed(p: Tables, op: TransferOp, g: Generated, tx: UUID): seq<Entry> {
    if tx == g.txID && Outcome(p, op, g).None? then EntriesOf(op, tx) else []
  }

  lemma {:induction false} ExecuteFiles(p: Tables, op: TransferOp, g: Generated, tx: UUID)
    requires Consistent(p) && FreshTx(p, g.txID)
    ensures OfTx(Execute(p, op, g).entries, tx) == OfTx(p.entries, tx) + Filed(p, op, g, tx)
  {
    if Outcome(p, op, g).None? {
      CommitKeys(p, op, g);
      OfTxConcat(p.entries, EntriesOf(op, g.txID), tx);
      OfTxOwn(op, g.txID, tx);
    }
  }

  lemma {:induction false} NothingFiledYet(p: Tables, calls: seq<Call>, tx: UUID)
    requires Consistent(p) && FreshCalls(p, calls) && FreshTx(p, tx) && forall i :: 0 <= i < |calls| ==> calls[i].g.txID != tx
    ensures OfTx(Run(p, calls).entries, tx) == []
  {
    RunStaysFresh(p, calls, tx);
    OfTxNone(Run(p, calls).entries, tx);
  }

  lemma RunFiles(p: Tables, calls: seq<Call>, tx: UUID)
    requires Consistent(p) && FreshCalls(p, calls) && calls != []
    ensures var q, last := Run(p, calls[..|calls| - 1]), calls[|calls| - 1];
            OfTx(Run(p, calls).entries, tx) == OfTx(q.entries, tx) + Filed(q, last.op, last.g, tx)
  {
    var before, last := calls[..|calls| - 1], calls[|calls| - 1];
    RunStaysFresh(p, before, last.g.txID);
    ExecuteFiles(Run(p, before), last.op, last.g, tx);
  }

  /** Over every run: a call that committed has exactly its own entries under its transaction, and one that failed has none. */
  lemma {:induction false} EachCallFilesItsEntries(p: Tables, calls: seq<Call>, i: nat)
    requires Consistent(p) && FreshCalls(p, calls) && i < |calls|
    ensures OfTx(Run(p, calls).entries, calls[i].g.txID)
         == Filed(Run(p, calls[..i]), calls[i].op, calls[i].g, calls[i].g.txID)
  {
    var n, tx := |calls| - 1, calls[i].g.txID;
    var before, last := calls[..n], calls[n];
    var q := Run(p, before);
    calc {
      OfTx(Run(p, calls).entries, tx);
      { RunFiles(p, calls, tx); }
      OfTx(q.entries, tx) + Filed(q, last.op, last.g, tx);
      {
        if i < n {
          EachCallFilesItsEntries(p, before, i);
          assert before[..i] == calls[..i];
        } else {
          NothingFiledYet(p, before, tx);
        }
      }
      Filed(Run(p, calls[..i]), calls[i].op, calls[i].g, tx);
    }
  }

  // ---- what the entries of a transaction say ---------------------------------------------

  /** One entry for each leg, in order: a debit of the leg's account by its magnitude when the leg takes from it, and a credit
      otherwise. */
  ghost predicate Records(es: seq<Entry>, legs: seq<Leg>, currency: string, tx: UUID) {
    && |es| == |legs|
    && forall i :: 0 <= i < |es| ==>
         && es[i].txID == tx && es[i].account == legs[i].account && es[i].currency == currency
         && (es[i].kind == Debit <==> legs[i].delta < 0)
         && es[i].amount >= 0 && (es[i].amount == legs[i].delta || es[i].amount == 0 - legs[i].delta)
  }

  /** Total of one side of a list of entries. */
  function SideTotal(kind: EntryType, es: seq<Entry>): int {
    if es == [] then 0 else SideTotal(kind, es[..|es| - 1]) + (if es[|es| - 1].kind == kind then es[|es| - 1].amount else 0)
  }

  lemma {:induction false} RecordedSides(es: seq<Entry>, legs: seq<Leg>, currency: string, tx: UUID)
    requires Records(es, legs, currency, tx)
    ensures SideTotal(Credit, es) - SideTotal(Debit, es) == DeltaSum(legs)
  {
    if es != [] {
      var n := |es| - 1;
      RecordedSides(es[..n], legs[..n], currency, tx);
      assert es[n].kind == Debit <==> legs[n].delta < 0;
    }
  }

  lemma CommittedBalances(p: Tables, op: TransferOp, g: Generated)
    requires Outcome(p, op, g).None?
    ensures DeltaSum(op.legs) == 0
  {
  }

  /** Over every run: the ledger records each committed call leg by leg, and its debits and credits have the same total. */
  lemma {:induction false} LedgerRecordsTheLegs(p: Tables, calls: seq<Call>, i: nat)
    requires Consistent(p) && FreshCalls(p, calls) && i < |calls|
    requires Outcome(Run(p, calls[..i]), calls[i].op, calls[i].g).None?
    ensures var es := OfTx(Run(p, calls).entries, calls[i].g.txID);
            && Records(es, calls[i].op.legs, calls[i].op.currency, calls[i].g.txID)
            && SideTotal(Debit, es) == SideTotal(Credit, es)
  {
    var op, tx := calls[i].op, calls[i].g.txID;
    EachCallFilesItsEntries(p, calls, i);
    assert Records(EntriesOf(op, tx), op.legs, op.currency, tx);
    RecordedSides(EntriesOf(op, tx), op.legs, op.currency, tx);
    CommittedBalances(Run(p, calls[..i]), op, calls[i].g);
  }

  // ---- transactions, transfer rows and outbox rows ----------------------------------------

  ghost predicate Posts(es: seq<Entry>, tx: UUID) {
    exists i :: 0 <= i < |es| && es[i].txID == tx
  }

  /** Every transfer row has entries in the ledger: with `RowsMatch`, its transactions, transfer rows and outbox rows are in
      bijection. */
  ghost predicate AllPosted(p: Tables) {
    forall j :: 0 <= j < |p.transfers| ==> Posts(p.entries, p.transfers[j].txID)
  }

  lemma PostsPersist(es: seq<Entry>, rows: seq<Entry>, tx: UUID)
    ensures Posts(es + rows, tx) <==> Posts(es, tx) || Posts(rows, tx)
  {
    var all := es + rows;
    if i :| 0 <= i < |es| && es[i].txID == tx {
      assert all[i].txID == tx;
    }
    if i :| 0 <= i < |rows| && rows[i].txID == tx {
      assert all[|es| + i].txID == tx;
    }
    if i :| 0 <= i < |all| && all[i].txID == tx {
      assert if i < |es| then es[i].txID == tx else rows[i - |es|].txID == tx;
    }
  }

  lemma CommitPosts(p: Tables, op: TransferOp, g: Generated)
    requires Consistent(p) && AllPosted(p) && FreshTx(p, g.txID) && Outcome(p, op, g).None?
    ensures AllPosted(Execute(p, op, g)) <==> op.legs != []
  {
    var q, rows, n := Execute(p, op, g), EntriesOf(op, g.txID), |p.transfers|;
    CommitKeys(p, op, g);
    forall j | 0 <= j < n ensures Posts(q.entries, q.transfers[j].txID) {
      PostsPersist(p.entries, rows, p.transfers[j].txID);
    }
    PostsPersist(p.entries, rows, g.txID);
    assert q.transfers[n].txID == g.txID;
    if op.legs != [] {
      assert rows[0].txID == g.txID;
    }
  }

  lemma EmptyOutcome(p: Tables, op: TransferOp, g: Generated)
    requires op.legs == []
    ensures Outcome(p, op, g) == if HasReference(p.transfers, g.reference) then Some(DuplicateReference) else None
  {
    assert EntriesOf(op, g.txID) == [];
  }

  /** One call keeps transactions, transfer rows and outbox rows in bijection exactly when it has legs; without any, only a
      reference already taken keeps it from committing rows for a transaction the ledger knows nothing of. */
  lemma CallPostsIff(p: Tables, op: TransferOp, g: Generated)
    requires Consistent(p) && AllPosted(p) && FreshTx(p, g.txID)
    ensures AllPosted(Execute(p, op, g)) <==> op.legs != [] || HasReference(p.transfers, g.reference)
  {
    if op.legs == [] {
      EmptyOutcome(p, op, g);
    }
    if Outcome(p, op, g).None? {
      CommitPosts(p, op, g);
    }
  }

  /** Over every run of operations with legs, transactions, transfer rows and outbox rows are in bijection. */
  lemma {:induction false} RowsInBijection(p: Tables, calls: seq<Call>)
    requires Consistent(p) && AllPosted(p) && FreshCalls(p, calls)
    requires forall i :: 0 <= i < |calls| ==> calls[i].op.legs != []
    ensures RowsMatch(Run(p, calls)) && AllPosted(Run(p, calls))
  {
    if calls != [] {
      var before, last := calls[..|calls| - 1], calls[|calls| - 1];
      RowsInBijection(p, before);
      RunStaysFresh(p, before, last.g.txID);
      CallPostsIff(Run(p, before), last.op, last.g);
      ExecuteKeepsBooks(Run(p, before), last.op, last.g, last.g.txID);
    }
  }

  /** An operation without legs commits a transfer row and an outbox row, and no ledger entry. */
  lemma EmptyOperationIsNotPosted(op: TransferOp, g: Generated)
    requires op.legs == []
    ensures var p := Tables.Tables(map[], [], [], []);
            var q := Execute(p, op, g);
            && Consistent(p) && AllPosted(p)
            && Consistent(q) && |q.transfers| == |q.outbox| == 1 && q.entries == [] && !AllPosted(q)
  {
    var p := Tables.Tables(map[], [], [], []);
    EmptyOutcome(p, op, g);
    CallPostsIff(p, op, g);
    ExecuteKeepsBooks(p, op, g, g.txID);
    assert EntriesOf(op, g.txID) == [];
  }
}
