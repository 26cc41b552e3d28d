/** Decimal numerals: the digit printer shared by amounts and keys, and the two-decimal amount printer. */
module Decimal {
  import opened Common

  predicate IsDigit(c: char) {
    '0' <= c <= '9'
  }

  function DigitChar(d: int): (c: char)
    requires 0 <= d < 10
    ensures IsDigit(c) && c as int - '0' as int == d
  {
    (d + '0' as int) as char
  }

  /** The decimal numeral of a natural number, most significant digit first, without leading zeros. */
  function DigitsOf(n: nat): (s: string)
    ensures |s| > 0 && forall i :: 0 <= i < |s| ==> IsDigit(s[i])
    ensures |s| > 1 ==> s[0] != '0'
  {
    if n < 10 then [DigitChar(n)] else DigitsOf(n / 10) + [DigitChar(n % 10)]
  }

  /** The number a digit sequence denotes (zero for the empty sequence). */
  function ValueOf(s: string): int
    requires forall i :: 0 <= i < |s| ==> IsDigit(s[i])
  {
    if s == "" then 0 else ValueOf(s[..|s| - 1]) * 10 + (s[|s| - 1] as int - '0' as int)
  }

  lemma {:induction false} ValueOfDigits(n: nat)
    ensures ValueOf(DigitsOf(n)) == n
  {
    if n >= 10 {
      ValueOfDigits(n / 10);
      assert DigitsOf(n)[..|DigitsOf(n)| - 1] == DigitsOf(n / 10);
    }
  }

  /** What the digit loop of the amount printer yields: nothing at all for a negative number. */
  function DigitsOrNothing(n: int): string {
    if n < 0 then "" else DigitsOf(n)
  }

  method Digits(n0: int) returns (s: string)
    ensures s == DigitsOrNothing(n0)
  {
    if n0 == 0 {
      return "0";
    }
    var n := n0;
    s := "";
    while n > 0
      invariant n0 > 0 ==> n >= 0 && DigitsOf(n0) == (if n == 0 then "" else DigitsOf(n)) + s
      invariant n0 < 0 ==> n == n0 && s == ""
    {
      s := [DigitChar(n % 10)] + s;
      n := n / 10;
    }
  }

  /** Division that truncates toward zero, with its remainder. */
  function TruncDiv(a: int, b: int): int
    requires b > 0
  {
    if a >= 0 then a / b else -((-a) / b)
  }

  function TruncMod(a: int, b: int): int
    requires b > 0
  {
    a - b * TruncDiv(a, b)
  }

  function Padded(frac: string): string {
    if |frac| < 2 then "0" + frac else frac
  }

  function Unsigned(cents: int): string {
    DigitsOrNothing(TruncDiv(cents, 100)) + "." + Padded(DigitsOrNothing(TruncMod(cents, 100)))
  }

  function Fixed2(cents: int64): string {
    if cents < 0 then "-" + Unsigned(Wrap64(0 - cents as int)) else Unsigned(cents)
  }

  /** The amount printer itself; negating the smallest 64-bit integer wraps around. */
  method ItoaFixed2(c: int64) returns (s: string)
    ensures s == Fixed2(c)
  {
    var sign, cents: int := "", c;
    if cents < 0 {
      sign := "-";
      cents := Wrap64(0 - cents);
    }
    var whole := Digits(TruncDiv(cents, 100));
    var frac := Digits(TruncMod(cents, 100));
    if |frac| < 2 {
      frac := "0" + frac;
    }
    s := sign + (whole + "." + frac);
  }

  /** Reads an optionally signed numeral with at least one whole digit and exactly two decimals. */
  function ReadFixed2(s: string): Option<int> {
    if s != "" && s[0] == '-' then
      match ReadUnsigned(s[1..])
      case Some(v) => Some(-v)
      case None => None
    else ReadUnsigned(s)
  }

  function ReadUnsigned(s: string): Option<int> {
    if |s| < 4 || s[|s| - 3] != '.' then None
    else
      var whole, frac := s[..|s| - 3], s[|s| - 2..];
      if (forall i :: 0 <= i < |whole| ==> IsDigit(whole[i])) && (forall i :: 0 <= i < |frac| ==> IsDigit(frac[i]))
      then Some(ValueOf(whole) * 100 + ValueOf(frac))
      else None
  }

  predicate AllDigits(s: string) {
    forall i :: 0 <= i < |s| ==> IsDigit(s[i])
  }

  lemma Slices(w: string, frac: string)
    requires |frac| == 2
    ensures var s := w + "." + frac;
            s[..|s| - 3] == w && s[|s| - 2..] == frac && s[|s| - 3] == '.'
  {
  }

  lemma {:induction false} ReadOfParts(w: string, frac: string)
    requires AllDigits(w) && AllDigits(frac) && |w| >= 1 && |frac| == 2
    ensures ReadUnsigned(w + "." + frac) == Some(ValueOf(w) * 100 + ValueOf(frac))
    ensures (w + "." + frac)[0] == w[0]
  {
    Slices(w, frac);
    ReadOfSlices(w + "." + frac, w, frac);
  }

  lemma {:induction false} ReadOfSlices(s: string, w: string, frac: string)
    requires |s| >= 4 && s[|s| - 3] == '.' && s[..|s| - 3] == w && s[|s| - 2..] == frac && AllDigits(w) && AllDigits(frac)
    ensures ReadUnsigned(s) == Some(ValueOf(w) * 100 + ValueOf(frac))
  {
  }

  lemma ReadOfUnsigned(cents: nat)
    ensures ReadUnsigned(Unsigned(cents)) == Some(cents)
    ensures Unsigned(cents) != "" && Unsigned(cents)[0] != '-'
  {
    var w, f := cents / 100, cents % 100;
    TwoDigits(f);
    ValueOfDigits(w);
    ReadOfParts(DigitsOf(w), Padded(DigitsOf(f)));
    assert TruncDiv(cents, 100) == w && TruncMod(cents, 100) == f;
  }

  lemma {:induction false} TwoDigits(n: nat)
    requires n < 100
    ensures |Padded(DigitsOf(n))| == 2
    ensures forall i :: 0 <= i < 2 ==> IsDigit(Padded(DigitsOf(n))[i])
    ensures ValueOf(Padded(DigitsOf(n))) == n
  {
    ValueOfDigits(n);
    if n < 10 {
      var t := "0" + DigitsOf(n);
      assert t[..1] == "0" && t[..1][..0] == "";
      assert ValueOf("0") == 0;
    }
  }

  lemma ReadNegated(t: string, v: int)
    requires ReadUnsigned(t) == Some(v)
    ensures ReadFixed2("-" + t) == Some(0 - v)
  {
    assert ("-" + t)[1..] == t;
  }

  lemma NegativeText(c: int64, n: nat)
    requires MIN_INT64 < c < 0 && n == 0 - c as int
    ensures Fixed2(c) == "-" + Unsigned(n)
  {
    assert Wrap64(n) == n;
  }

  lemma ReadOfNegative(c: int64)
    requires MIN_INT64 < c < 0
    ensures ReadFixed2(Fixed2(c)) == Some(c)
  {
    var n: nat := 0 - c as int;
    var t := Unsigned(n);
    NegativeText(c, n);
    ReadOfUnsigned(n);
    ReadNegated(t, n);
  }

  lemma SmallestText()
    ensures Fixed2(MIN_INT64) == "-.0"
  {
    assert TruncDiv(MIN_INT64, 100) < 0 && TruncMod(MIN_INT64, 100) == -8;
    assert Unsigned(MIN_INT64) == "" + "." + ("0" + "");
  }

  lemma ReadOfSmallest()
    ensures ReadFixed2(Fixed2(MIN_INT64)) == None
  {
    SmallestText();
    assert |"-.0"[1..]| == 2;
  }

  /** Minus twelve and five hundredths. */
  lemma FiveHundredths()
    ensures Fixed2(-1205) == "-12.05"
  {
    assert DigitsOf(12) == "1" + "2" && DigitsOf(5) == "5";
    assert Unsigned(1205) == "12" + "." + "05";
  }

  /** Reading a printed amount gives it back for every 64-bit amount except the smallest one. */
  lemma ReadOfPrint(c: int64)
    ensures ReadFixed2(Fixed2(c)) == Some(c) <==> c != MIN_INT64
  {
    if c == MIN_INT64 {
      ReadOfSmallest();
    } else if c < 0 {
      ReadOfNegative(c);
    } else {
      ReadOfUnsigned(c);
    }
  }
}
