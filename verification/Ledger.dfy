/** The idempotent double-entry ledger of the payment engine: the in-memory repository, the outbox and the service over them. */
module Ledger {
  import opened Common
  import opened Uuid
  import opened Domain
  import opened IdempotencyKeys

  /** The repository's two indexes: entries by idempotency key, and the entry list of each transaction. */
  datatype State = State(entries: map<string, LedgerEntry>, byTx: map<UUID, seq<LedgerEntry>>) {
    function Of(tx: UUID): seq<LedgerEntry> {
      if tx in byTx then byTx[tx] else []
    }
  }

  const EMPTY := State(map[], map[])

  function Index(entries: map<string, LedgerEntry>, es: seq<LedgerEntry>): map<string, LedgerEntry> {
    if es == [] then entries
    else
      var last := es[|es| - 1];
      Index(entries, es[..|es| - 1])[last.key := last]
  }

  /** The repository after saving a batch: both indexes take every entry, in order. */
  function Save(l: State, tx: UUID, es: seq<LedgerEntry>): State {
    State(Index(l.entries, es), if es == [] then l.byTx else l.byTx[tx := l.Of(tx) + es])
  }

  function SettlementBatch(tx: UUID, leg: SplitLeg, key: string): seq<LedgerEntry> {
    [LedgerEntry(tx, CLEARING, Debit, leg.amount, key),
     LedgerEntry(tx, leg.sourceID, Credit, leg.amount, CreditKey(key))]
  }

  function CompensationBatch(tx: UUID, leg: SplitLeg, key: string): seq<LedgerEntry> {
    [LedgerEntry(tx, leg.sourceID, Debit, leg.amount, key),
     LedgerEntry(tx, CLEARING, Credit, leg.amount, CreditKey(key))]
  }

  datatype OutboxEvent = OutboxEvent(txID: UUID, leg: SplitLeg, published: bool)

  type Outbox = map<UUID, OutboxEvent>

  // ---- the imperative stores ------------------------------------------------

  datatype SaveError = UnbalancedBatch

  class InMemoryRepository {
    var entries: map<string, LedgerEntry>
    var byTx: map<UUID, seq<LedgerEntry>>

    function Snapshot(): State
      reads this
    {
      State.State(entries, byTx)
    }

    constructor ()
      ensures Snapshot() == EMPTY
    {
      entries, byTx := map[], map[];
    }

    method SaveBatch(batch: LedgerBatch) returns (r: Result<(), SaveError>)
      modifies this
      ensures r.Ok? <==> Wrap64(Total(Debit, batch.entries)) == Wrap64(Total(Credit, batch.entries))
      ensures r.Ok? ==> Snapshot() == Save(old(Snapshot()), batch.txID, batch.entries)
      ensures r.Err? ==> Snapshot() == old(Snapshot())
    {
      var ok := IsBalanced(batch);
      if !ok {
        return Err(UnbalancedBatch);
      }
      var es, tx := batch.entries, batch.txID;
      for i := 0 to |es|
        invariant Snapshot() == Save(old(Snapshot()), tx, es[..i])
      {
        assert es[..i + 1] == es[..i] + [es[i]];
        entries := entries[es[i].key := es[i]];
        byTx := byTx[tx := (if tx in byTx then byTx[tx] else []) + [es[i]]];
        SaveOne(old(Snapshot()), tx, es[..i], es[i]);
      }
      assert es[..|es|] == es;
      r := Ok(());
    }

    method EntryExists(key: string) returns (exists_: bool)
      ensures exists_ <==> key in Snapshot().entries
    {
      exists_ := key in entries;
    }

    method GetEntriesByTransaction(tx: UUID) returns (es: seq<LedgerEntry>)
      ensures es == Snapshot().Of(tx)
    {
      es := if tx in byTx then byTx[tx] else [];
    }
  }

  lemma SaveOne(l: State, tx: UUID, es: seq<LedgerEntry>, e: LedgerEntry)
    ensures var m := Save(l, tx, es);
            Save(l, tx, es + [e]) == State(m.entries[e.key := e], m.byTx[tx := m.Of(tx) + [e]])
  {
    var m := Save(l, tx, es);
    assert (es + [e])[..|es|] == es;
    if es == [] {
      assert m.Of(tx) + [e] == l.Of(tx) + (es + [e]);
    } else {
      assert m.Of(tx) + [e] == l.Of(tx) + (es + [e]);
    }
  }

  class InMemoryOutbox {
    var events: Outbox

    constructor ()
      ensures events == map[]
    {
      events := map[];
    }

    method Enqueue(id: UUID, event: OutboxEvent)
      modifies this
      ensures events == old(events)[id := event]
    {
      events := events[id := event];
    }

    method MarkPublished(id: UUID)
      modifies this
      ensures id in old(events) ==> events == old(events)[id := old(events)[id].(published := true)]
      ensures id !in old(events) ==> events == old(events)
    {
      if id in events {
        events := events[id := events[id].(published := true)];
      }
    }

    ghost function Unpublished(): set<UUID>
      reads this
    {
      set id | id in events && !events[id].published
    }

    /** Reads unpublished events in the map's arbitrary order; even a limit of zero or less yields one event when there is one. */
    method FetchUnpublished(limit: int) returns (out: seq<UUID>)
      ensures Distinct(out)
      ensures forall id :: id in out ==> id in Unpublished()
      ensures |out| <= (if limit < 1 then 1 else limit)
      ensures |out| < (if limit < 1 then 1 else limit) ==> forall id :: id in Unpublished() ==> id in out
    {
      out := [];
      var todo := events.Keys;
      while todo != {}
        invariant todo <= events.Keys
        invariant Distinct(out)
        invariant forall id :: id in out ==> id in Unpublished() && id !in todo
        invariant forall id :: id in Unpublished() ==> id in out || id in todo
        invariant |out| < (if limit < 1 then 1 else limit)
        decreases todo
      {
        var id :| id in todo;
        todo := todo - {id};
        if !events[id].published {
          out := out + [id];
          if |out| >= limit {
            break;
          }
        }
      }
    }
  }

  // ---- the service ------------------------------------------------------------

  /** Ledger and outbox together. */
  datatype Books = Books(ledger: State, outbox: Outbox)

  const NO_BOOKS := Books(EMPTY, map[])

  datatype Call =
    | RecordSplitSettlement(tx: UUID, leg: SplitLeg, key: string, eventID: UUID)
    | RecordCompensation(tx: UUID, leg: SplitLeg, key: string)

  function BatchOf(c: Call): seq<LedgerEntry> {
    match c
    case RecordSplitSettlement(tx, leg, key, _) => SettlementBatch(tx, leg, key)
    case RecordCompensation(tx, leg, key) => CompensationBatch(tx, leg, key)
  }

  lemma BatchBalances(c: Call)
    ensures Total(Debit, BatchOf(c)) == c.leg.amount == Total(Credit, BatchOf(c))
  {
    PairTotals(BatchOf(c), CLEARING);
  }

  /** What one call leaves behind when its key is new. */
  function Post(b: Books, c: Call): Books {
    Books(Save(b.ledger, c.tx, BatchOf(c)),
          if c.RecordSplitSettlement? then b.outbox[c.eventID := OutboxEvent(c.tx, c.leg, false)] else b.outbox)
  }

  function Apply(b: Books, c: Call): Books {
    if c.key in b.ledger.entries then b else Post(b, c)
  }

  function Run(b: Books, calls: seq<Call>): Books
    decreases calls
  {
    if calls == [] then b else Run(Apply(b, calls[0]), calls[1..])
  }

  class Service {
    const repo: InMemoryRepository
    const outbox: InMemoryOutbox

    function Snapshot(): Books
      reads repo, outbox
    {
      Books.Books(repo.Snapshot(), outbox.events)
    }

    constructor (repo: InMemoryRepository, outbox: InMemoryOutbox)
      ensures this.repo == repo && this.outbox == outbox
    {
      this.repo, this.outbox := repo, outbox;
    }

    method RecordSplitSettlement(tx: UUID, leg: SplitLeg, key: string, eventID: UUID) returns (r: Result<(), SaveError>)
      modifies repo, outbox
      ensures r.Ok? && Snapshot() == Apply(old(Snapshot()), Call.RecordSplitSettlement(tx, leg, key, eventID))
    {
      var found := repo.EntryExists(key);
      if found {
        return Ok(());
      }
      BatchBalances(Call.RecordSplitSettlement(tx, leg, key, eventID));
      r := repo.SaveBatch(LedgerBatch(tx, SettlementBatch(tx, leg, key)));
      outbox.Enqueue(eventID, OutboxEvent(tx, leg, false));
    }

    method RecordCompensation(tx: UUID, leg: SplitLeg, key: string) returns (r: Result<(), SaveError>)
      modifies repo, outbox
      ensures r.Ok? && Snapshot() == Apply(old(Snapshot()), Call.RecordCompensation(tx, leg, key))
    {
      var found := repo.EntryExists(key);
      if found {
        return Ok(());
      }
      BatchBalances(Call.RecordCompensation(tx, leg, key));
      r := repo.SaveBatch(LedgerBatch(tx, CompensationBatch(tx, leg, key)));
    }
  }

  // ---- idempotent replay ----------------------------------------------------

  /** The calls whose key is neither in `seen` nor used by an earlier call. */
  function FirstUses(seen: set<string>, calls: seq<Call>): seq<Call>
    decreases calls
  {
    if calls == [] then []
    else if calls[0].key in seen then FirstUses(seen, calls[1..])
    else [calls[0]] + FirstUses(seen + {calls[0].key}, calls[1..])
  }

  lemma ApplyKeys(b: Books, c: Call)
    ensures c.key in Apply(b, c).ledger.entries
    ensures b.ledger.entries.Keys <= Apply(b, c).ledger.entries.Keys
    ensures Apply(b, c).ledger.entries.Keys <= b.ledger.entries.Keys + {c.key, CreditKey(c.key)}
  {
    SavePair(b.ledger, c.tx, BatchOf(c));
  }

  lemma SavePair(l: State, tx: UUID, es: seq<LedgerEntry>)
    requires |es| == 2
    ensures Save(l, tx, es) == State(l.entries[es[0].key := es[0]][es[1].key := es[1]], l.byTx[tx := l.Of(tx) + es])
  {
    assert es[..1] == [es[0]] && es[..1][..0] == [];
    assert Index(l.entries, es[..1]) == l.entries[es[0].key := es[0]];
  }

  lemma {:induction false} ReplayFrom(b: Books, seen: set<string>, calls: seq<Call>)
    requires seen <= b.ledger.entries.Keys
    ensures Run(b, FirstUses(seen, calls)) == Run(b, calls)
    decreases calls
  {
    if calls != [] {
      var c, rest := calls[0], calls[1..];
      if c.key in seen {
        ReplayFrom(b, seen, rest);
      } else {
        ApplyKeys(b, c);
        ReplayFrom(Apply(b, c), seen + {c.key}, rest);
        var tail := FirstUses(seen + {c.key}, rest);
        assert ([c] + tail)[1..] == tail;
      }
    }
  }

  /** Repeating keys changes nothing: any list of calls leaves the books that its first uses of each key leave. */
  lemma {:induction false} ReplayIsIdempotent(b: Books, calls: seq<Call>)
    ensures Run(b, FirstUses({}, calls)) == Run(b, calls)
  {
    ReplayFrom(b, {}, calls);
  }

  // ---- agreement of the indexes --------------------------------------------

  /** Each keyed entry sits exactly once in the list of its own transaction, and no other entries are listed. */
  ghost predicate Consistent(l: State) {
    Filed(l) && OnlyFiled(l) && NoRepeats(l)
  }

  ghost predicate Filed(l: State) {
    forall k :: k in l.entries ==> l.entries[k].key == k && l.entries[k] in l.Of(l.entries[k].txID)
  }

  ghost predicate OnlyFiled(l: State) {
    forall t, i :: 0 <= i < |l.Of(t)| ==> Listed(l, t, l.Of(t)[i])
  }

  ghost predicate NoRepeats(l: State) {
    forall t, i, j :: 0 <= i < j < |l.Of(t)| ==> l.Of(t)[i].key != l.Of(t)[j].key
  }

  ghost predicate Listed(l: State, t: UUID, e: LedgerEntry) {
    e.txID == t && e.key in l.entries && l.entries[e.key] == e
  }

  lemma PostedList(b: Books, c: Call, t: UUID)
    ensures Post(b, c).ledger.Of(t) == b.ledger.Of(t) + (if t == c.tx then BatchOf(c) else [])
    ensures Post(b, c).ledger.entries == b.ledger.entries[c.key := BatchOf(c)[0]][CreditKey(c.key) := BatchOf(c)[1]]
  {
    SavePair(b.ledger, c.tx, BatchOf(c));
  }

  ghost predicate NewKeys(l: State, c: Call) {
    c.key !in l.entries && CreditKey(c.key) !in l.entries
  }

  /** What a call under a new key writes: a settlement debits clearing and credits the source, a compensation does the reverse;
      the debit is filed under the key, the credit under the key followed by ":credit". */
  lemma WrittenEntries(b: Books, c: Call)
    requires c.key !in b.ledger.entries
    ensures var debit := LedgerEntry(c.tx, if c.RecordSplitSettlement? then CLEARING else c.leg.sourceID, Debit, c.leg.amount, c.key);
            var credit := LedgerEntry(c.tx, if c.RecordSplitSettlement? then c.leg.sourceID else CLEARING, Credit, c.leg.amount, c.key + ":credit");
            && Apply(b, c).ledger.Of(c.tx) == b.ledger.Of(c.tx) + [debit, credit]
            && Apply(b, c).ledger.entries == b.ledger.entries[c.key := debit][c.key + ":credit" := credit]
            && Apply(b, c).outbox == if c.RecordSplitSettlement? then b.outbox[c.eventID := OutboxEvent(c.tx, c.leg, false)] else b.outbox
  {
    PostedList(b, c, c.tx);
  }

  lemma PostKeepsFiled(b: Books, c: Call)
    requires Filed(b.ledger) && NewKeys(b.ledger, c)
    ensures Filed(Post(b, c).ledger)
  {
    var l, m, es := b.ledger, Post(b, c).ledger, BatchOf(c);
    PostedList(b, c, c.tx);
    forall k | k in m.entries ensures m.entries[k].key == k && m.entries[k] in m.Of(m.entries[k].txID) {
      if k in l.entries {
        PostedList(b, c, l.entries[k].txID);
      } else {
        assert m.entries[k] == es[0] || m.entries[k] == es[1];
      }
    }
  }

  lemma PostKeepsOnlyFiled(b: Books, c: Call)
    requires OnlyFiled(b.ledger) && NewKeys(b.ledger, c)
    ensures OnlyFiled(Post(b, c).ledger)
  {
    var l, m := b.ledger, Post(b, c).ledger;
    forall t, i | 0 <= i < |m.Of(t)| ensures Listed(m, t, m.Of(t)[i]) {
      PostedList(b, c, t);
      if i < |l.Of(t)| {
        assert Listed(l, t, l.Of(t)[i]);
      }
    }
  }

  lemma PostKeepsNoRepeats(b: Books, c: Call)
    requires OnlyFiled(b.ledger) && NoRepeats(b.ledger) && NewKeys(b.ledger, c)
    ensures NoRepeats(Post(b, c).ledger)
  {
    var l, m := b.ledger, Post(b, c).ledger;
    forall t, i, j | 0 <= i < j < |m.Of(t)| ensures m.Of(t)[i].key != m.Of(t)[j].key {
      PostedList(b, c, t);
      if i < |l.Of(t)| {
        assert Listed(l, t, l.Of(t)[i]);
      }
    }
  }

  lemma PostKeepsConsistent(b: Books, c: Call)
    requires Consistent(b.ledger) && NewKeys(b.ledger, c)
    ensures Consistent(Post(b, c).ledger)
  {
    PostKeepsFiled(b, c);
    PostKeepsOnlyFiled(b, c);
    PostKeepsNoRepeats(b, c);
  }

  /** A call keeps the indexes in agreement exactly when the key of its credit side is new too. */
  lemma PostConsistentIff(b: Books, c: Call)
    requires Consistent(b.ledger) && c.key !in b.ledger.entries
    ensures Consistent(Post(b, c).ledger) <==> CreditKey(c.key) !in b.ledger.entries
  {
    var ck := CreditKey(c.key);
    if ck in b.ledger.entries {
      var e := b.ledger.entries[ck];
      var m := Post(b, c).ledger;
      PostedList(b, c, e.txID);
      PostedList(b, c, c.tx);
      var i :| 0 <= i < |b.ledger.Of(e.txID)| && b.ledger.Of(e.txID)[i] == e;
      assert m.Of(e.txID)[i] == e;
      assert m.entries[ck] == BatchOf(c)[1];
      if e.txID == c.tx {
        var j := |b.ledger.Of(c.tx)| + 1;
        assert m.Of(c.tx)[j].key == ck && m.Of(c.tx)[i].key == ck;
      } else {
        assert !Listed(m, e.txID, m.Of(e.txID)[i]);
      }
    } else {
      PostKeepsConsistent(b, c);
    }
  }

  /** Calls keyed as the executor and the rollback handler key them. */
  ghost predicate WellKeyed(c: Call) {
    exists k, src :: c.key == (if c.RecordSplitSettlement? then SettleKey(k, src) else ReversalKey(k, src))
  }

  /** A base key and the key of its credit side are present together. */
  ghost predicate Paired(l: State) {
    && (forall k: string, src: UUID :: SettleKey(k, src) in l.entries <==> CreditKey(SettleKey(k, src)) in l.entries)
    && (forall k: string, src: UUID :: ReversalKey(k, src) in l.entries <==> CreditKey(ReversalKey(k, src)) in l.entries)
  }

  lemma PostKeepsPaired(b: Books, c: Call)
    requires Paired(b.ledger) && WellKeyed(c)
    ensures Paired(Post(b, c).ledger)
  {
    var l, m := b.ledger, Post(b, c).ledger;
    PostedList(b, c, c.tx);
    var f := if c.RecordSplitSettlement? then Settlement else Reversal;
    var k, src :| c.key == Key(f, k, src);
    CreditForms(k, src);
    forall k': string, src': UUID
      ensures SettleKey(k', src') in m.entries <==> CreditKey(SettleKey(k', src')) in m.entries
      ensures ReversalKey(k', src') in m.entries <==> CreditKey(ReversalKey(k', src')) in m.entries
    {
      CreditForms(k', src');
      assert SettleKey(k', src') in l.entries <==> CreditKey(SettleKey(k', src')) in l.entries;
      assert ReversalKey(k', src') in l.entries <==> CreditKey(ReversalKey(k', src')) in l.entries;
      NewKey(f, k, src, Settlement, k', src');
      NewKey(f, k, src, Reversal, k', src');
    }
  }

  /** Of the two keys a call adds, the base matches only itself and the credit only its own credit. */
  lemma NewKey(f: Form, k: string, src: UUID, g: Form, k': string, src': UUID)
    requires f in {Settlement, Reversal} && g in {Settlement, Reversal}
    ensures Key(f, k, src) != CreditKey(Key(g, k', src'))
    ensures CreditKey(Key(f, k, src)) != Key(g, k', src')
    ensures Key(f, k, src) == Key(g, k', src') <==> CreditKey(Key(f, k, src)) == CreditKey(Key(g, k', src'))
  {
    CreditForms(k, src);
    CreditForms(k', src');
    var fc := if f == Settlement then SettlementCredit else ReversalCredit;
    var gc := if g == Settlement then SettlementCredit else ReversalCredit;
    if Key(f, k, src) == Key(gc, k', src') {
      KeysNeverCollide(f, k, src, gc, k', src');
    }
    if Key(fc, k, src) == Key(g, k', src') {
      KeysNeverCollide(fc, k, src, g, k', src');
    }
    if Key(fc, k, src) == Key(gc, k', src') {
      KeysNeverCollide(fc, k, src, gc, k', src');
    }
  }

  /** In a paired ledger a missing base key means the credit key is missing too, so every well-keyed call keeps the indexes in agreement. */
  lemma ApplyKeepsAgreement(b: Books, c: Call)
    requires Consistent(b.ledger) && Paired(b.ledger) && WellKeyed(c)
    ensures Consistent(Apply(b, c).ledger) && Paired(Apply(b, c).ledger)
  {
    if c.key !in b.ledger.entries {
      PostKeepsPaired(b, c);
      PostKeepsConsistent(b, c);
    }
  }

  lemma {:induction false} AgreementFrom(b: Books, calls: seq<Call>)
    requires Consistent(b.ledger) && Paired(b.ledger) && forall c :: c in calls ==> WellKeyed(c)
    ensures Consistent(Run(b, calls).ledger) && Paired(Run(b, calls).ledger)
    decreases calls
  {
    if calls != [] {
      ApplyKeepsAgreement(b, calls[0]);
      AgreementFrom(Apply(b, calls[0]), calls[1..]);
    }
  }

  /** Every ledger the engine can reach keeps its two indexes in agreement. */
  lemma {:induction false} IndexesAgree(calls: seq<Call>)
    requires forall c :: c in calls ==> WellKeyed(c)
    ensures Consistent(Run(NO_BOOKS, calls).ledger) && Paired(Run(NO_BOOKS, calls).ledger)
  {
    AgreementFrom(NO_BOOKS, calls);
  }

  // ---- conservation and the outbox --------------------------------------------

  /** The calls that actually write, in order. */
  function Written(b: Books, calls: seq<Call>): seq<Call>
    decreases calls
  {
    if calls == [] then []
    else (if calls[0].key in b.ledger.entries then [] else [calls[0]]) + Written(Apply(b, calls[0]), calls[1..])
  }

  function BatchesFor(t: UUID, calls: seq<Call>): seq<LedgerEntry> {
    if calls == [] then []
    else (if calls[0].tx == t then BatchOf(calls[0]) else []) + BatchesFor(t, calls[1..])
  }

  function EventsOf(calls: seq<Call>): Outbox {
    if calls == [] then map[]
    else if calls[0].RecordSplitSettlement?
    then map[calls[0].eventID := OutboxEvent(calls[0].tx, calls[0].leg, false)] + EventsOf(calls[1..])
    else EventsOf(calls[1..])
  }

  function Settlements(calls: seq<Call>): nat {
    if calls == [] then 0
    else (if calls[0].RecordSplitSettlement? then 1 else 0) + Settlements(calls[1..])
  }

  lemma {:induction false} WrittenAmong(b: Books, calls: seq<Call>)
    ensures forall c :: c in Written(b, calls) ==> c in calls
    ensures DistinctEvents(calls) ==> DistinctEvents(Written(b, calls))
    decreases calls
  {
    if calls != [] {
      var c, rest := calls[0], calls[1..];
      WrittenAmong(Apply(b, c), rest);
      var w := Written(Apply(b, c), rest);
      if DistinctEvents(calls) {
        assert DistinctEvents(rest);
        assert forall d :: d in rest && c.RecordSplitSettlement? && d.RecordSplitSettlement? ==> c.eventID != d.eventID;
        assert forall d :: d in w ==> d in rest;
      }
    }
  }

  lemma {:induction false} ListFrom(b: Books, calls: seq<Call>, t: UUID)
    ensures Run(b, calls).ledger.Of(t) == b.ledger.Of(t) + BatchesFor(t, Written(b, calls))
    decreases calls
  {
    if calls != [] {
      var c, rest := calls[0], calls[1..];
      ListFrom(Apply(b, c), rest, t);
      var w := Written(Apply(b, c), rest);
      if c.key !in b.ledger.entries {
        PostedList(b, c, t);
        assert ([c] + w)[1..] == w;
      } else {
        assert [] + w == w;
      }
    }
  }

  lemma {:induction false} EventsFirst(o: Outbox, c: Call, w: seq<Call>)
    ensures o + EventsOf([c] + w)
         == (if c.RecordSplitSettlement? then o[c.eventID := OutboxEvent(c.tx, c.leg, false)] else o) + EventsOf(w)
  {
    assert ([c] + w)[1..] == w;
  }

  lemma {:induction false} OutboxFrom(b: Books, calls: seq<Call>)
    ensures Run(b, calls).outbox == b.outbox + EventsOf(Written(b, calls))
    decreases calls
  {
    if calls != [] {
      var c, rest := calls[0], calls[1..];
      OutboxFrom(Apply(b, c), rest);
      var w := Written(Apply(b, c), rest);
      if c.key !in b.ledger.entries {
        EventsFirst(b.outbox, c, w);
      } else {
        assert [] + w == w;
      }
    }
  }

  lemma {:induction false} BatchesBalance(t: UUID, calls: seq<Call>)
    ensures Balanced(BatchesFor(t, calls))
  {
    if calls != [] {
      BatchesBalance(t, calls[1..]);
      var es := if calls[0].tx == t then BatchOf(calls[0]) else [];
      TotalConcat(Debit, es, BatchesFor(t, calls[1..]));
      TotalConcat(Credit, es, BatchesFor(t, calls[1..]));
      BatchBalances(calls[0]);
    }
  }

  ghost predicate DistinctEvents(calls: seq<Call>) {
    forall i, j :: 0 <= i < j < |calls| && calls[i].RecordSplitSettlement? && calls[j].RecordSplitSettlement?
                   ==> calls[i].eventID != calls[j].eventID
  }

  function EventIDs(calls: seq<Call>): set<UUID> {
    set c | c in calls && c.RecordSplitSettlement? :: c.eventID
  }

  lemma DistinctTail(calls: seq<Call>)
    requires calls != [] && DistinctEvents(calls)
    ensures DistinctEvents(calls[1..])
    ensures calls[0].RecordSplitSettlement? ==> calls[0].eventID !in EventIDs(calls[1..])
    ensures EventIDs(calls) == EventIDs(calls[1..]) + (if calls[0].RecordSplitSettlement? then {calls[0].eventID} else {})
  {
    assert forall c :: c in calls <==> c == calls[0] || c in calls[1..];
  }

  lemma {:induction false} EventKeys(calls: seq<Call>)
    requires DistinctEvents(calls)
    ensures EventsOf(calls).Keys == EventIDs(calls)
  {
    if calls != [] {
      DistinctTail(calls);
      EventKeys(calls[1..]);
    }
  }

  lemma {:induction false} EventIDCount(calls: seq<Call>)
    requires DistinctEvents(calls)
    ensures |EventIDs(calls)| == Settlements(calls)
  {
    if calls != [] {
      DistinctTail(calls);
      EventIDCount(calls[1..]);
    }
  }

  lemma {:induction false} EventCount(calls: seq<Call>)
    requires DistinctEvents(calls)
    ensures |EventsOf(calls)| == Settlements(calls)
  {
    EventKeys(calls);
    EventIDCount(calls);
    assert |EventsOf(calls)| == |EventsOf(calls).Keys|;
  }

  lemma {:induction false} EventContent(calls: seq<Call>, i: nat)
    requires DistinctEvents(calls) && i < |calls| && calls[i].RecordSplitSettlement?
    ensures calls[i].eventID in EventsOf(calls)
    ensures EventsOf(calls)[calls[i].eventID] == OutboxEvent(calls[i].tx, calls[i].leg, false)
  {
    DistinctTail(calls);
    EventKeys(calls[1..]);
    if i > 0 {
      EventContent(calls[1..], i - 1);
    }
  }

  /** Starting from empty books: each transaction's list is exactly the batches written for it, and balances. */
  lemma {:induction false} LedgerIsTheWrittenCalls(calls: seq<Call>, t: UUID)
    ensures Run(NO_BOOKS, calls).ledger.Of(t) == BatchesFor(t, Written(NO_BOOKS, calls))
    ensures Balanced(Run(NO_BOOKS, calls).ledger.Of(t))
  {
    var w := Written(NO_BOOKS, calls);
    ListFrom(NO_BOOKS, calls, t);
    BatchesBalance(t, w);
    assert [] + BatchesFor(t, w) == BatchesFor(t, w);
  }

  /** With fresh event identifiers, the outbox holds exactly one event for each settlement batch written. */
  lemma {:induction false} OutboxMatchesSettlements(calls: seq<Call>)
    requires DistinctEvents(calls)
    ensures var box := Run(NO_BOOKS, calls).outbox;
            var w := Written(NO_BOOKS, calls);
            && |box| == Settlements(w)
            && forall i :: 0 <= i < |w| && w[i].RecordSplitSettlement? ==>
                 w[i].eventID in box && box[w[i].eventID] == OutboxEvent(w[i].tx, w[i].leg, false)
  {
    var w := Written(NO_BOOKS, calls);
    OutboxFrom(NO_BOOKS, calls);
    assert map[] + EventsOf(w) == EventsOf(w);
    WrittenAmong(NO_BOOKS, calls);
    EventCount(w);
    forall i | 0 <= i < |w| && w[i].RecordSplitSettlement?
      ensures w[i].eventID in EventsOf(w) && EventsOf(w)[w[i].eventID] == OutboxEvent(w[i].tx, w[i].leg, false)
    {
      EventContent(w, i);
    }
  }
}
