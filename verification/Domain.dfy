/** Entities of the payment engine. */
module Domain {
  import opened Common
  import opened Uuid

  datatype AssetType = CurrentAccount | SavingsAccount | CreditLine

  /** A user's source of funds at one provider; balances are in minor units. */
  datatype UserAsset = UserAsset(
    id: UUID,
    provider: string,
    assetType: AssetType,
    available: int64,
    priority: int,
    isActive: bool,
    threshold: int64)
  {
    /** What lies above the threshold, by a 64-bit subtraction that wraps around; nothing for an inactive asset. */
    function AvailableForLiquidation(): (usable: int)
      ensures usable >= 0
    {
      if !isActive then 0
      else
        var usable := Wrap64(available - threshold);
        if usable < 0 then 0 else usable
    }
  }

  /** What an asset has to give: for an active one, exactly what lies above its threshold, while that difference fits in 64
      bits; if it is too large nothing, and if it is too negative the difference plus 2^64. */
  lemma UsableIs(a: UserAsset)
    ensures a.AvailableForLiquidation()
         == var above: int := a.available as int - a.threshold;
            if !a.isActive || above > MAX_INT64 then 0
            else if above < MIN_INT64 then above + 0x1_0000_0000_0000_0000
            else if above > 0 then above
            else 0
  {
  }

  /** The distance to the threshold is too negative for 64 bits, so that the subtraction wraps around. */
  predicate Underflows(a: UserAsset) {
    a.available - a.threshold < MIN_INT64
  }

  /** Drawing any amount that counts as usable leaves the safety threshold intact exactly when the subtraction does not
      underflow; when it does underflow, an active asset seems to have something to give. */
  lemma ThresholdIsSafe(a: UserAsset, amount: int)
    ensures 0 < amount <= a.AvailableForLiquidation() ==> (a.available - amount >= a.threshold <==> !Underflows(a))
    ensures a.isActive && Underflows(a) ==> a.AvailableForLiquidation() > 0
  {
  }

  datatype SplitStatus = Pending | Reserved | Settled | Failed | Compensated

  /** What stopped a leg. */
  datatype Fault =
    | CircuitOpen(provider: string)
    | NoConnection(provider: string)
    | NoAccountRef(source: UUID)
    | BankError(message: string)

  datatype SplitLeg = SplitLeg(
    sourceID: UUID,
    provider: string,
    assetType: AssetType,
    amount: int,
    externalRef: string,
    status: SplitStatus,
    error: Option<Fault>)

  /** Total amount of a list of legs. */
  function Amount(legs: seq<SplitLeg>): int {
    if legs == [] then 0 else Amount(legs[..|legs| - 1]) + legs[|legs| - 1].amount
  }

  datatype EntryType = Debit | Credit

  datatype LedgerEntry = LedgerEntry(txID: UUID, account: UUID, kind: EntryType, amount: int, key: string)

  datatype LedgerBatch = LedgerBatch(txID: UUID, entries: seq<LedgerEntry>)

  /** Total of one side of a list of entries. */
  function Total(kind: EntryType, es: seq<LedgerEntry>): int {
    if es == [] then 0
    else (if es[0].kind == kind then es[0].amount else 0) + Total(kind, es[1..])
  }

  /** Credits minus debits of one account. */
  function Net(es: seq<LedgerEntry>, account: UUID): int {
    if es == [] then 0 else EntryNet(es[0], account) + Net(es[1..], account)
  }

  function EntryNet(e: LedgerEntry, account: UUID): int {
    if e.account != account then 0 else if e.kind == Credit then e.amount else -e.amount
  }

  predicate Balanced(es: seq<LedgerEntry>) {
    Total(Debit, es) == Total(Credit, es)
  }

  lemma {:induction false} TotalConcat(kind: EntryType, a: seq<LedgerEntry>, b: seq<LedgerEntry>)
    ensures Total(kind, a + b) == Total(kind, a) + Total(kind, b)
  {
    if a == [] {
      assert a + b == b;
    } else {
      TotalConcat(kind, a[1..], b);
      assert (a + b)[1..] == a[1..] + b;
    }
  }

  lemma {:induction false} NetConcat(a: seq<LedgerEntry>, b: seq<LedgerEntry>, account: UUID)
    ensures Net(a + b, account) == Net(a, account) + Net(b, account)
  {
    if a == [] {
      assert a + b == b;
    } else {
      NetConcat(a[1..], b, account);
      assert (a + b)[1..] == a[1..] + b;
    }
  }

  lemma {:induction false} PairTotals(es: seq<LedgerEntry>, account: UUID)
    requires |es| == 2
    ensures Net(es, account) == EntryNet(es[0], account) + EntryNet(es[1], account)
    ensures forall kind :: Total(kind, es) == (if es[0].kind == kind then es[0].amount else 0) + (if es[1].kind == kind then es[1].amount else 0)
  {
    assert es[1..][1..] == [];
    assert Net(es[1..], account) == EntryNet(es[1], account) + Net(es[1..][1..], account);
    forall kind ensures Total(kind, es[1..]) == if es[1].kind == kind then es[1].amount else 0 {
      assert Total(kind, es[1..][1..]) == 0;
    }
  }

  /** The entries of a list of batches, in order. */
  function Concat(parts: seq<seq<LedgerEntry>>): seq<LedgerEntry> {
    if parts == [] then [] else Concat(parts[..|parts| - 1]) + parts[|parts| - 1]
  }

  lemma {:induction false} ConcatEmpty(parts: seq<seq<LedgerEntry>>)
    requires forall i :: 0 <= i < |parts| ==> parts[i] == []
    ensures Concat(parts) == []
  {
    if parts != [] {
      ConcatEmpty(parts[..|parts| - 1]);
    }
  }

  /** Filling an empty batch adds its entries to the whole, up to order. */
  lemma {:induction false} ConcatFill(parts: seq<seq<LedgerEntry>>, i: nat, p: seq<LedgerEntry>)
    requires i < |parts| && parts[i] == []
    ensures multiset(Concat(parts[i := p])) == multiset(Concat(parts)) + multiset(p)
  {
    var n := |parts| - 1;
    var before, filled := parts[..n], parts[i := p];
    if i < n {
      ConcatFill(before, i, p);
      assert filled[..n] == before[i := p] && filled[n] == parts[n];
      assert Concat(filled) == Concat(before[i := p]) + parts[n];
    } else {
      assert filled[..n] == before && filled[n] == p;
      assert Concat(parts) == Concat(before);
    }
  }

  lemma {:induction false} NetPickedOut(x: LedgerEntry, p: seq<LedgerEntry>, q: seq<LedgerEntry>, account: UUID)
    ensures Net(p + ([x] + q), account) == Net([x] + q, account) - Net(q, account) + Net(p + q, account)
  {
    NetConcat(p, [x] + q, account);
    NetConcat(p, q, account);
  }

  /** The net position does not depend on the order of the entries. */
  lemma {:induction false} NetPermutation(a: seq<LedgerEntry>, b: seq<LedgerEntry>, account: UUID)
    requires multiset(a) == multiset(b)
    ensures Net(a, account) == Net(b, account)
    decreases |a|
  {
    if a == [] {
      assert |multiset(b)| == 0;
    } else {
      var i, rest := TakeFirst(a, b);
      var p, q := b[..i], b[i + 1..];
      NetPermutation(a[1..], rest, account);
      NetPickedOut(a[0], p, q, account);
      assert ([a[0]] + q)[1..] == q;
    }
  }

  lemma {:induction false} TotalPickedOut(kind: EntryType, x: LedgerEntry, p: seq<LedgerEntry>, q: seq<LedgerEntry>)
    ensures Total(kind, p + ([x] + q)) == Total(kind, [x] + q) - Total(kind, q) + Total(kind, p + q)
  {
    TotalConcat(kind, p, [x] + q);
    TotalConcat(kind, p, q);
  }

  /** Nor do the totals of the two sides. */
  lemma {:induction false} TotalPermutation(kind: EntryType, a: seq<LedgerEntry>, b: seq<LedgerEntry>)
    requires multiset(a) == multiset(b)
    ensures Total(kind, a) == Total(kind, b)
    decreases |a|
  {
    if a == [] {
      assert |multiset(b)| == 0;
    } else {
      var i, rest := TakeFirst(a, b);
      var p, q := b[..i], b[i + 1..];
      TotalPermutation(kind, a[1..], rest);
      TotalPickedOut(kind, a[0], p, q);
      assert ([a[0]] + q)[1..] == q;
    }
  }

  lemma SameRemainder(x: int, y: int, k: int)
    requires x == y + k * 0x1_0000_0000_0000_0000
    ensures x % 0x1_0000_0000_0000_0000 == y % 0x1_0000_0000_0000_0000
  {
  }

  /** Truncating a running sum at each addition is truncating it once at the end. */
  lemma WrapAdd(a: int, b: int)
    ensures Wrap64(Wrap64(a) + b) == Wrap64(a + b)
  {
    var k := (Wrap64(a) - a) / 0x1_0000_0000_0000_0000;
    assert Wrap64(a) - a == k * 0x1_0000_0000_0000_0000;
    SameRemainder(Wrap64(a) + b, a + b, k);
  }

  /** The balance test adds up both sides in 64 bits: they agree modulo 2^64, and exactly so while the totals fit. */
  method IsBalanced(batch: LedgerBatch) returns (ok: bool)
    ensures ok <==> Wrap64(Total(Debit, batch.entries)) == Wrap64(Total(Credit, batch.entries))
    ensures FitsInt64(Total(Debit, batch.entries)) && FitsInt64(Total(Credit, batch.entries)) ==> (ok <==> Balanced(batch.entries))
  {
    var es := batch.entries;
    var debit, credit: int := 0, 0;
    for i := 0 to |es|
      invariant debit == Wrap64(Total(Debit, es[..i])) && credit == Wrap64(Total(Credit, es[..i]))
    {
      assert es[..i + 1] == es[..i] + [es[i]];
      TotalConcat(Debit, es[..i], [es[i]]);
      TotalConcat(Credit, es[..i], [es[i]]);
      WrapAdd(Total(Debit, es[..i]), es[i].amount);
      WrapAdd(Total(Credit, es[..i]), es[i].amount);
      match es[i].kind
      case Debit => debit := Wrap64(debit + es[i].amount);
      case Credit => credit := Wrap64(credit + es[i].amount);
    }
    assert es[..|es|] == es;
    ok := debit == credit;
  }
}
