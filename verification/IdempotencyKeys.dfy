/** The keys under which the payment engine files its ledger entries. */
module IdempotencyKeys {
  import opened Common
  import opened Uuid
  import Decimal

  datatype Form = Settlement | SettlementCredit | Reversal | ReversalCredit

  const CREDIT := ":credit"
  const REVERSAL := ":reversal"

  function Suffix(f: Form): string {
    match f
    case Settlement => ""
    case SettlementCredit => CREDIT
    case Reversal => REVERSAL
    case ReversalCredit => REVERSAL + CREDIT
  }

  /** The key of leg `src` of the transaction keyed `k`. */
  function Key(f: Form, k: string, src: UUID): string {
    k + ":" + Text(src) + Suffix(f)
  }

  function SettleKey(k: string, src: UUID): string {
    Key(Settlement, k, src)
  }

  function ReversalKey(k: string, src: UUID): string {
    Key(Reversal, k, src)
  }

  /** The key of the credit side of a batch filed under `base`. */
  function CreditKey(base: string): string {
    base + CREDIT
  }

  lemma CreditForms(k: string, src: UUID)
    ensures CreditKey(SettleKey(k, src)) == Key(SettlementCredit, k, src)
    ensures CreditKey(ReversalKey(k, src)) == Key(ReversalCredit, k, src)
  {
    assert CreditKey(SettleKey(k, src)) == k + ":" + Text(src) + CREDIT;
    assert CreditKey(ReversalKey(k, src)) == k + ":" + Text(src) + (REVERSAL + CREDIT);
  }

  /** The keys as they are filed. */
  lemma KeySpellings(k: string, src: UUID)
    ensures SettleKey(k, src) == k + ":" + Text(src)
    ensures CreditKey(SettleKey(k, src)) == k + ":" + Text(src) + ":credit"
    ensures ReversalKey(k, src) == k + ":" + Text(src) + ":reversal"
    ensures CreditKey(ReversalKey(k, src)) == k + ":" + Text(src) + ":reversal:credit"
    ensures forall i: nat :: EntryKey(k, src, i) == k + ":" + Text(src) + ":" + Decimal.DigitsOf(i)
  {
    assert REVERSAL + CREDIT == ":reversal:credit";
    assert k + ":" + Text(src) + REVERSAL + CREDIT == k + ":" + Text(src) + (REVERSAL + CREDIT);
  }

  /** A base key `k:src` ends in a hexadecimal digit and determines both parts. */
  lemma BaseInjective(k: string, src: UUID, l: string, dst: UUID)
    requires k + ":" + Text(src) == l + ":" + Text(dst)
    ensures k == l && src == dst
  {
    var s := k + ":" + Text(src);
    var t := l + ":" + Text(dst);
    assert s[|s| - 36..] == Text(src) && t[|t| - 36..] == Text(dst);
    assert s[..|s| - 37] == k && t[..|t| - 37] == l;
    TextInjective(src, dst);
  }

  lemma BaseEnding(k: string, src: UUID)
    ensures var s := k + ":" + Text(src); IsLowerHex(s[|s| - 1])
  {
    TextEnding(src);
  }

  /** The form of a key can be read off three of its characters. */
  lemma EndingOfForm(f: Form, k: string, src: UUID)
    ensures var x := Key(f, k, src);
            && |x| >= 37
            && (f == Settlement <==> IsLowerHex(x[|x| - 1]))
            && (f == Reversal <==> x[|x| - 1] == 'l')
            && (f.SettlementCredit? || f.ReversalCredit? <==> x[|x| - 1] == 't')
            && (f == ReversalCredit <==> x[|x| - 1] == 't' && x[|x| - 8] == 'l')
  {
    var b := k + ":" + Text(src);
    var x := Key(f, k, src);
    BaseEnding(k, src);
    assert x == b + Suffix(f);
    if f == SettlementCredit {
      assert x[|x| - 8] == b[|b| - 1];
    }
  }

  /** No two keys of any form, transaction or leg coincide. */
  lemma KeysNeverCollide(f: Form, k: string, src: UUID, g: Form, l: string, dst: UUID)
    requires Key(f, k, src) == Key(g, l, dst)
    ensures f == g && k == l && src == dst
  {
    var b, c := k + ":" + Text(src), l + ":" + Text(dst);
    var x := Key(f, k, src);
    BaseEnding(k, src);
    BaseEnding(l, dst);
    EndingOfForm(f, k, src);
    EndingOfForm(g, l, dst);
    assert f == g;
    assert x[..|x| - |Suffix(f)|] == b;
    assert x[..|x| - |Suffix(f)|] == c;
    BaseInjective(k, src, l, dst);
  }

  // ---- keys of the Postgres ledger entries --------------------------------

  /** `key:transaction:position`, as filed by the Postgres account store. */
  function EntryKey(k: string, tx: UUID, i: nat): string {
    k + ":" + Text(tx) + ":" + Decimal.DigitsOf(i)
  }

  /** Keys of different transactions, or of different positions, differ whatever the client's key was. */
  lemma EntryKeysNeverCollide(k: string, tx: UUID, i: nat, l: string, ty: UUID, j: nat)
    requires EntryKey(k, tx, i) == EntryKey(l, ty, j)
    ensures k == l && tx == ty && i == j
  {
    var b, c := k + ":" + Text(tx), l + ":" + Text(ty);
    var d, e := Decimal.DigitsOf(i), Decimal.DigitsOf(j);
    var x := EntryKey(k, tx, i);
    assert x == b + ":" + d && x == c + ":" + e;
    assert x[|b|] == ':' && x[|c|] == ':';
    assert forall n :: |b| < n < |x| ==> x[n] == d[n - |b| - 1] && x[n] != ':';
    assert forall n :: |c| < n < |x| ==> x[n] == e[n - |c| - 1] && x[n] != ':';
    assert x[..|b|] == b && x[..|b|] == c;
    assert x[|b| + 1..] == d && x[|b| + 1..] == e;
    BaseInjective(k, tx, l, ty);
    Decimal.ValueOfDigits(i);
    Decimal.ValueOfDigits(j);
  }
}
