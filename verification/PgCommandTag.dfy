/**
 * The affected-row count of a CommandComplete tag: its last run of digits, accumulated in 64 bits.
 * The tag is scanned byte by byte: every byte of a multi-byte character is above the digits, so scanning whole
 * characters finds the same runs.
 */
module PgCommandTag {
  import opened Common
  import opened Decimal

  function Text(b: seq<byte>): string {
    seq(|b|, i requires 0 <= i < |b| => b[i] as char)
  }

  /** A tag without its terminating zero byte, if it has one. */
  function Trimmed(tag: string): string {
    if tag != "" && tag[|tag| - 1] == 0 as char then tag[..|tag| - 1] else tag
  }

  /** The longest run of digits at the end. */
  function DigitSuffix(s: string): (d: string)
    ensures AllDigits(d)
  {
    if s == "" || !IsDigit(s[|s| - 1]) then "" else DigitSuffix(s[..|s| - 1]) + [s[|s| - 1]]
  }

  /** The last run of digits anywhere; empty when there is no digit. */
  function LastRun(s: string): (d: string)
    ensures AllDigits(d)
  {
    if s == "" then ""
    else if IsDigit(s[|s| - 1]) then DigitSuffix(s)
    else LastRun(s[..|s| - 1])
  }

  /** The count a run stands for: 64-bit arithmetic wraps around, and a negative outcome counts as zero. */
  function Count(run: string): (n: int64)
    requires AllDigits(run)
    ensures n >= 0
  {
    var w := Wrap64(ValueOf(run));
    if w >= 0 then w else 0
  }

  function TagCount(body: seq<byte>): int64 {
    Count(LastRun(Trimmed(Text(body))))
  }

  function RunValue(run: string): int64
    requires AllDigits(run)
  {
    if run == "" then -1 else Wrap64(ValueOf(run))
  }

  /** Wrapping after every step is the same as wrapping once. */
  lemma WrapStep(a: int, d: int)
    ensures Wrap64(Wrap64(a) * 10 + d) == Wrap64(a * 10 + d)
  {
    var m := 0x1_0000_0000_0000_0000;
    var w: int := Wrap64(a);
    var q := (w - a) / m;
    assert w - a == q * m;
    WrapShift(a * 10 + d, 10 * q);
  }

  lemma WrapShift(x: int, q: int)
    ensures Wrap64(x + q * 0x1_0000_0000_0000_0000) == Wrap64(x)
  {
    var m := 0x1_0000_0000_0000_0000;
    assert (x + q * m) % m == x % m;
  }

  /** The scanner's variables: the last complete number, the one being read, and whether one is being read. */
  datatype Scan = Scan(lastNum: int64, cur: int64, haveDigits: bool)

  function ScanNext(v: Scan, ch: char): Scan {
    if IsDigit(ch) then Scan(v.lastNum, Wrap64(v.cur * 10 + (ch as int - '0' as int)), true)
    else Scan(if v.haveDigits then v.cur else v.lastNum, 0, false)
  }

  function Scanned(s: string): Scan {
    if s == "" then Scan(-1, 0, false) else ScanNext(Scanned(s[..|s| - 1]), s[|s| - 1])
  }

  lemma {:induction false} SuffixNext(s: string, ch: char)
    ensures DigitSuffix(s + [ch]) == if IsDigit(ch) then DigitSuffix(s) + [ch] else ""
    ensures LastRun(s + [ch]) == if IsDigit(ch) then DigitSuffix(s + [ch]) else LastRun(s)
    ensures Scanned(s + [ch]) == ScanNext(Scanned(s), ch)
  {
    assert (s + [ch])[..|s|] == s;
  }

  lemma {:induction false} ValueNext(run: string, ch: char)
    requires AllDigits(run) && IsDigit(ch)
    ensures Wrap64(ValueOf(run + [ch])) == Wrap64(Wrap64(ValueOf(run)) * 10 + (ch as int - '0' as int))
  {
    assert (run + [ch])[..|run|] == run;
    WrapStep(ValueOf(run), ch as int - '0' as int);
  }

  /** What the variables mean in terms of the text scanned. */
  predicate Means(v: Scan, s: string) {
    && (v.haveDigits <==> DigitSuffix(s) != "")
    && v.cur == Wrap64(ValueOf(DigitSuffix(s)))
    && RunValue(LastRun(s)) == if v.haveDigits then v.cur else v.lastNum
  }

  lemma MeansNext(v: Scan, s: string, ch: char)
    requires Means(v, s)
    ensures Means(ScanNext(v, ch), s + [ch])
  {
    SuffixNext(s, ch);
    if IsDigit(ch) {
      ValueNext(DigitSuffix(s), ch);
    }
  }

  lemma {:induction false} ScannedMeans(s: string)
    ensures Means(Scanned(s), s)
  {
    if s != "" {
      var before, ch := s[..|s| - 1], s[|s| - 1];
      ScannedMeans(before);
      MeansNext(Scanned(before), before, ch);
      assert s == before + [ch];
    }
  }

  lemma {:induction false} ScanResult(s: string)
    ensures var v := Scanned(s);
            var last := if v.haveDigits then v.cur else v.lastNum;
            Count(LastRun(s)) == if last >= 0 then last else 0
  {
    ScannedMeans(s);
  }

  method ParseCommandTag(body: seq<byte>) returns (n: int64)
    ensures n == TagCount(body)
  {
    var tag := Text(body);
    if |tag| > 0 && tag[|tag| - 1] == 0 as char {
      tag := tag[..|tag| - 1];
    }
    var lastNum: int64 := -1;
    var cur: int64 := 0;
    var haveDigits := false;
    for i := 0 to |tag|
      invariant Scan(lastNum, cur, haveDigits) == Scanned(tag[..i])
    {
      var ch := tag[i];
      ghost var before := Scan(lastNum, cur, haveDigits);
      if '0' <= ch <= '9' {
        cur := Wrap64(cur * 10 + (ch as int - '0' as int));
        haveDigits := true;
      } else {
        if haveDigits {
          lastNum := cur;
        }
        cur := 0;
        haveDigits := false;
      }
      assert Scan(lastNum, cur, haveDigits) == ScanNext(before, ch);
      assert tag[..i + 1][..i] == tag[..i];
    }
    assert tag[..|tag|] == tag;
    ScanResult(tag);
    if haveDigits {
      lastNum := cur;
    }
    n := if lastNum >= 0 then lastNum else 0;
  }

  lemma {:induction false} SuffixOf(p: string, d: string)
    requires AllDigits(d) && (p == "" || !IsDigit(p[|p| - 1]))
    ensures DigitSuffix(p + d) == d
  {
    if d == "" {
      assert p + d == p;
    } else {
      var front, last := d[..|d| - 1], d[|d| - 1];
      assert d == front + [last];
      SuffixOf(p, front);
      SuffixNext(p + front, last);
      Regroup(p, front, [last]);
    }
  }

  /** The last run is the digits `d` whenever the text ends in `d` followed by non-digits and nothing extends `d` to the left. */
  lemma {:induction false} LastRunOf(p: string, d: string, q: string)
    requires d != "" && AllDigits(d) && (p == "" || !IsDigit(p[|p| - 1]))
    requires forall i :: 0 <= i < |q| ==> !IsDigit(q[i])
    ensures LastRun(p + d + q) == d
    decreases |q|
  {
    if q == "" {
      assert p + d + q == p + d;
      assert (p + d)[|p + d| - 1] == d[|d| - 1];
      SuffixOf(p, d);
    } else {
      LastRunOf(p, d, q[..|q| - 1]);
      assert (p + d + q)[..|p + d + q| - 1] == p + d + q[..|q| - 1];
    }
  }

  lemma {:induction false} NoRun(s: string)
    requires forall i :: 0 <= i < |s| ==> !IsDigit(s[i])
    ensures LastRun(s) == ""
  {
    if s != "" {
      NoRun(s[..|s| - 1]);
    }
  }

  lemma TrimmedOf(t: string)
    requires t != "" && t[|t| - 1] != 0 as char
    ensures Trimmed(t + [0 as char]) == t && Trimmed(t) == t
  {
    assert (t + [0 as char])[..|t|] == t;
  }

  /**
   * A tag that ends in the numeral of `n`, with or without its zero byte, counts `n` rows exactly when `n` fits in 64
   * bits: the text before it may hold any digits, as the zero of "INSERT 0 1" does.
   */
  lemma {:induction false} CountOfTag(body: seq<byte>, p: string, n: nat)
    requires p == "" || !IsDigit(p[|p| - 1])
    requires Text(body) == p + DigitsOf(n) || Text(body) == p + DigitsOf(n) + [0 as char]
    ensures TagCount(body) == n <==> n <= MAX_INT64
  {
    var t := p + DigitsOf(n);
    assert t[|t| - 1] == DigitsOf(n)[|DigitsOf(n)| - 1];
    assert t == p + DigitsOf(n) + "";
    TrimmedOf(t);
    LastRunOf(p, DigitsOf(n), "");
    ValueOfDigits(n);
  }

  /** A tag without any digit counts no rows. */
  lemma CountOfWords(body: seq<byte>)
    requires forall i :: 0 <= i < |body| ==> !IsDigit(body[i] as char)
    ensures TagCount(body) == 0
  {
    NoRun(Trimmed(Text(body)));
  }
}
