/** Text form of 128-bit identifiers (section 3 of RFC 4122), as printed and parsed by internal/uuid. */
module Uuid {
  import opened Common

  type UUID = u: seq<byte> | |u| == 16 witness [0, 0, 0, 0, 0, 0, 0, 0, 0, 0, 0, 0, 0, 0, 0, 0]

  const NIL: UUID := [0, 0, 0, 0, 0, 0, 0, 0, 0, 0, 0, 0, 0, 0, 0, 0]

  /** The internal clearing account 00000000-0000-0000-0000-000000000001. */
  const CLEARING: UUID := [0, 0, 0, 0, 0, 0, 0, 0, 0, 0, 0, 0, 0, 0, 0, 1]

  datatype ParseError = BadLength | MissingDashes | BadHex

  // ---- hexadecimal ------------------------------------------------------

  function HexDigit(n: int): (c: char)
    requires 0 <= n < 16
    ensures IsLowerHex(c) && HexValue(c) == Some(n)
  {
    if n < 10 then (n + '0' as int) as char else (n - 10 + 'a' as int) as char
  }

  predicate IsLowerHex(c: char) {
    '0' <= c <= '9' || 'a' <= c <= 'f'
  }

  function HexValue(c: char): (v: Option<int>)
    ensures v.Some? ==> 0 <= v.value < 16
  {
    if '0' <= c <= '9' then Some(c as int - '0' as int)
    else if 'a' <= c <= 'f' then Some(c as int - 'a' as int + 10)
    else if 'A' <= c <= 'F' then Some(c as int - 'A' as int + 10)
    else None
  }

  function ToLower(c: char): char {
    if 'A' <= c <= 'Z' then (c as int - 'A' as int + 'a' as int) as char else c
  }

  function Lower(s: string): (r: string)
    ensures |r| == |s|
  {
    seq(|s|, i requires 0 <= i < |s| => ToLower(s[i]))
  }

  function Hex(bs: seq<byte>): (s: string)
    ensures |s| == 2 * |bs|
  {
    if bs == [] then "" else [HexDigit(bs[0] / 16), HexDigit(bs[0] % 16)] + Hex(bs[1..])
  }

  /** Bytes of a hexadecimal text in either case; None for an odd length or a foreign character. */
  function Unhex(s: string): (r: Option<seq<byte>>)
    ensures r.Some? ==> 2 * |r.value| == |s|
  {
    if s == "" then Some([])
    else if |s| == 1 then None
    else
      match (HexValue(s[0]), HexValue(s[1]), Unhex(s[2..]))
      case (Some(hi), Some(lo), Some(rest)) => Some([hi * 16 + lo] + rest)
      case _ => None
  }

  lemma {:induction false} UnhexHex(bs: seq<byte>)
    ensures Unhex(Hex(bs)) == Some(bs)
  {
    if bs != [] {
      UnhexHex(bs[1..]);
      assert Hex(bs)[2..] == Hex(bs[1..]);
      assert [bs[0]] + bs[1..] == bs;
    }
  }

  lemma DigitOfValue(c: char)
    requires HexValue(c).Some?
    ensures HexDigit(HexValue(c).value) == ToLower(c)
  {
  }

  lemma {:induction false} HexUnhex(s: string)
    requires Unhex(s).Some?
    ensures Hex(Unhex(s).value) == Lower(s)
  {
    if s != "" {
      HexUnhex(s[2..]);
      var b, rest := Unhex(s).value, Unhex(s[2..]).value;
      DigitOfValue(s[0]);
      DigitOfValue(s[1]);
      assert b[0] / 16 == HexValue(s[0]).value && b[0] % 16 == HexValue(s[1]).value;
      assert b[1..] == rest;
      assert Lower(s) == [ToLower(s[0]), ToLower(s[1])] + Lower(s[2..]);
    }
  }

  lemma {:induction false} UnhexAccepts(s: string)
    ensures Unhex(s).Some? <==> |s| % 2 == 0 && forall i :: 0 <= i < |s| ==> HexValue(s[i]).Some?
  {
    if |s| >= 2 {
      UnhexAccepts(s[2..]);
      assert forall i :: 0 <= i < |s[2..]| ==> s[2..][i] == s[i + 2];
      assert forall i :: 2 <= i < |s| ==> s[i] == s[2..][i - 2];
    }
  }

  lemma {:induction false} HexConcat(a: seq<byte>, b: seq<byte>)
    ensures Hex(a + b) == Hex(a) + Hex(b)
  {
    if a == [] {
      assert a + b == b;
    } else {
      HexConcat(a[1..], b);
      assert (a + b)[1..] == a[1..] + b;
      Regroup(Hex(a)[..2], Hex(a[1..]), Hex(b));
      assert Hex(a) == Hex(a)[..2] + Hex(a[1..]);
    }
  }

  // ---- the dashed text form ---------------------------------------------

  /** Places the four dashes of the 8-4-4-4-12 form into 32 hexadecimal characters. */
  function Dashed(h: string): (s: string)
    requires |h| == 32
    ensures |s| == 36
  {
    h[..8] + "-" + h[8..12] + "-" + h[12..16] + "-" + h[16..20] + "-" + h[20..]
  }

  predicate HasDashes(s: string)
    requires |s| == 36
  {
    s[8] == '-' && s[13] == '-' && s[18] == '-' && s[23] == '-'
  }

  function Undashed(s: string): (h: string)
    requires |s| == 36
    ensures |h| == 32
  {
    s[..8] + s[9..13] + s[14..18] + s[19..23] + s[24..]
  }

  function Text(u: UUID): (s: string)
    ensures |s| == 36
  {
    Dashed(Hex(u))
  }

  function Decode(h: string): Result<UUID, ParseError>
    requires |h| == 32
  {
    match Unhex(h)
    case Some(b) => Ok(b)
    case None => Err(BadHex)
  }

  function ParseText(s: string): Result<UUID, ParseError> {
    if |s| == 36 then
      if HasDashes(s) then Decode(Undashed(s)) else Err(MissingDashes)
    else if |s| == 32 then Decode(s)
    else Err(BadLength)
  }

  /** The 32 significant characters of a candidate identifier text. */
  function Digits(s: string): string
    requires |s| == 36 || |s| == 32
  {
    if |s| == 36 then Undashed(s) else s
  }

  lemma UndashedDashed(h: string)
    requires |h| == 32
    ensures HasDashes(Dashed(h)) && Undashed(Dashed(h)) == h
  {
    var s := Dashed(h);
    assert s[..8] == h[..8];
    assert s[9..13] == h[8..12];
    assert s[14..18] == h[12..16];
    assert s[19..23] == h[16..20];
    assert s[24..] == h[20..];
    assert h == h[..8] + h[8..12] + h[12..16] + h[16..20] + h[20..];
  }

  lemma DashedUndashed(s: string)
    requires |s| == 36 && HasDashes(s)
    ensures Dashed(Undashed(s)) == s
  {
    var h := Undashed(s);
    assert h[..8] == s[..8];
    assert h[8..12] == s[9..13];
    assert h[12..16] == s[14..18];
    assert h[16..20] == s[19..23];
    assert h[20..] == s[24..];
    assert s == s[..8] + "-" + s[9..13] + "-" + s[14..18] + "-" + s[19..23] + "-" + s[24..];
  }

  /** Printing and then parsing gives the identifier back. */
  lemma ParseOfText(u: UUID)
    ensures ParseText(Text(u)) == Ok(u)
  {
    UndashedDashed(Hex(u));
    UnhexHex(u);
  }

  lemma TextInjective(u: UUID, v: UUID)
    requires Text(u) == Text(v)
    ensures u == v
  {
    ParseOfText(u);
    ParseOfText(v);
  }

  /** Every accepted spelling prints back as its lower-cased dashed form. */
  lemma TextOfParse(s: string)
    requires ParseText(s).Ok?
    ensures |s| == 36 || |s| == 32
    ensures Text(ParseText(s).value) == Dashed(Lower(Digits(s)))
    ensures |s| == 36 ==> Text(ParseText(s).value) == Lower(s)
  {
    HexUnhex(Digits(s));
    if |s| == 36 {
      LowerUndashed(s);
      DashedUndashed(Lower(s));
    }
  }

  lemma LowerUndashed(s: string)
    requires |s| == 36 && HasDashes(s)
    ensures HasDashes(Lower(s)) && Lower(Undashed(s)) == Undashed(Lower(s))
  {
  }

  lemma {:induction false} UnhexIff(h: string)
    ensures Unhex(h).Some? <==> |h| % 2 == 0 && forall i :: 0 <= i < |h| ==> h[i] in "0123456789abcdefABCDEF"
  {
    UnhexAccepts(h);
    forall i | 0 <= i < |h| ensures HexValue(h[i]).Some? <==> h[i] in "0123456789abcdefABCDEF" {
      HexValueIs(h[i]);
    }
  }

  /** Exactly which texts are accepted, and which error every other text gets. */
  lemma ParseAccepts(s: string)
    ensures ParseText(s).Ok? <==>
            && (|s| == 32 || (|s| == 36 && HasDashes(s)))
            && forall i :: 0 <= i < 32 ==> Digits(s)[i] in "0123456789abcdefABCDEF"
    ensures ParseText(s) == Err(BadLength) <==> |s| != 36 && |s| != 32
    ensures ParseText(s) == Err(MissingDashes) <==> |s| == 36 && !HasDashes(s)
  {
    if |s| == 36 || |s| == 32 {
      UnhexIff(Digits(s));
    }
  }

  lemma {:induction false} HexAlphabet(bs: seq<byte>, i: nat)
    requires i < 2 * |bs|
    ensures IsLowerHex(Hex(bs)[i])
  {
    if i >= 2 {
      HexAlphabet(bs[1..], i - 2);
    }
  }

  lemma TextEnding(u: UUID)
    ensures IsLowerHex(Text(u)[35])
  {
    HexAlphabet(u, 31);
  }

  lemma {:induction false} HexCharacters(bs: seq<byte>, i: nat)
    requires i < |bs|
    ensures Hex(bs)[2 * i] == "0123456789abcdef"[bs[i] / 16] && Hex(bs)[2 * i + 1] == "0123456789abcdef"[bs[i] % 16]
  {
    if i > 0 {
      HexCharacters(bs[1..], i - 1);
    } else {
      HexDigitIs(bs[0] / 16);
      HexDigitIs(bs[0] % 16);
    }
  }

  lemma HexDigitIs(n: int)
    requires 0 <= n < 16
    ensures HexDigit(n) == "0123456789abcdef"[n]
  {
  }

  lemma HexValueIs(c: char)
    ensures HexValue(c).Some? <==> c in "0123456789abcdefABCDEF"
  {
    assert c in "0123456789abcdefABCDEF" <==> '0' <= c <= '9' || 'a' <= c <= 'f' || 'A' <= c <= 'F' by {
      var all := "0123456789abcdefABCDEF";
      if '0' <= c <= '9' {
        assert all[c as int - '0' as int] == c;
      } else if 'a' <= c <= 'f' {
        assert all[c as int - 'a' as int + 10] == c;
      } else if 'A' <= c <= 'F' {
        assert all[c as int - 'A' as int + 16] == c;
      }
    }
  }

  /** Byte `i` of an identifier is printed as two lower-case hexadecimal digits, high half first, and a dash stands before bytes
      4, 6, 8 and 10. */
  lemma TextCharacters(u: UUID, i: nat)
    requires i < 16
    ensures var at := 2 * i + (if i < 4 then 0 else if i < 6 then 1 else if i < 8 then 2 else if i < 10 then 3 else 4);
            Text(u)[at] == "0123456789abcdef"[u[i] / 16] && Text(u)[at + 1] == "0123456789abcdef"[u[i] % 16]
    ensures Text(u)[8] == Text(u)[13] == Text(u)[18] == Text(u)[23] == '-'
  {
    HexCharacters(u, i);
  }

  // ---- the imperative printers and parsers ------------------------------

  lemma {:induction false} HexSnoc(bs: seq<byte>, b: byte)
    ensures Hex(bs + [b]) == Hex(bs) + [HexDigit(b / 16), HexDigit(b % 16)]
  {
    HexConcat(bs, [b]);
    assert [b][1..] == [];
    assert Hex([b]) == [HexDigit(b / 16), HexDigit(b % 16)] + Hex([]);
  }

  /** The library's encoder: writes the hexadecimal text of `src` into `dst` from `at` on. */
  method HexEncode(dst: array<char>, at: nat, src: seq<byte>)
    requires at + 2 * |src| <= dst.Length
    modifies dst
    ensures dst[..at] == old(dst[..at])
    ensures dst[at..at + 2 * |src|] == Hex(src)
    ensures dst[at + 2 * |src|..] == old(dst[at + 2 * |src|..])
  {
    for k := 0 to |src|
      invariant forall i :: 0 <= i < at || at + 2 * k <= i < dst.Length ==> dst[i] == old(dst[i])
      invariant dst[at..at + 2 * k] == Hex(src[..k])
    {
      ghost var done := dst[at..at + 2 * k];
      HexSnoc(src[..k], src[k]);
      assert src[..k + 1] == src[..k] + [src[k]];
      dst[at + 2 * k] := HexDigit(src[k] / 16);
      dst[at + 2 * k + 1] := HexDigit(src[k] % 16);
      assert dst[at..at + 2 * k + 2] == done + [HexDigit(src[k] / 16), HexDigit(src[k] % 16)];
    }
    assert src[..|src|] == src;
  }

  /** The buffer holds `p` so far, and dashes from there on. */
  ghost predicate Holds(buf: array<char>, p: string)
    reads buf
  {
    && |p| <= buf.Length
    && buf[..|p|] == p
    && forall i :: |p| <= i < buf.Length ==> buf[i] == '-'
  }

  /** Writes the next segment; returns the text up to and including the dash that follows it. */
  method PutSegment(buf: array<char>, src: seq<byte>, ghost p: string, at: nat) returns (ghost q: string)
    requires Holds(buf, p) && at == |p| && at + 2 * |src| <= buf.Length
    modifies buf
    ensures q == p + Hex(src) + "-"
    ensures at + 2 * |src| == buf.Length ==> buf[..] == p + Hex(src)
    ensures at + 2 * |src| < buf.Length ==> Holds(buf, q)
  {
    ghost var rest := buf[at + 2 * |src|..];
    HexEncode(buf, at, src);
    assert buf[..at + 2 * |src|] == buf[..at] + buf[at..at + 2 * |src|];
    forall i | at + 2 * |src| <= i < buf.Length ensures buf[i] == '-' {
      assert buf[i] == rest[i - at - 2 * |src|];
    }
    q := p + Hex(src) + "-";
  }

  method Format(u: UUID) returns (s: string)
    ensures s == Text(u)
  {
    var buf := new char[36](_ => '-');
    ghost var p := PutSegment(buf, u[0..4], "", 0);
    assert "" + Hex(u[0..4]) == Hex(u[0..4]);
    p := PutSegment(buf, u[4..6], p, 9);
    p := PutSegment(buf, u[6..8], p, 14);
    p := PutSegment(buf, u[8..10], p, 19);
    ghost var _ := PutSegment(buf, u[10..16], p, 24);
    s := buf[..];
    TextSegments(u);
  }

  lemma HexSplit(u: seq<byte>, k: nat, n: nat)
    requires k <= n <= |u|
    ensures Hex(u[..n]) == Hex(u[..k]) + Hex(u[k..n])
  {
    HexConcat(u[..k], u[k..n]);
    assert u[..n] == u[..k] + u[k..n];
  }

  lemma {:induction false} HexSegments(u: UUID)
    ensures Hex(u) == Hex(u[0..4]) + Hex(u[4..6]) + Hex(u[6..8]) + Hex(u[8..10]) + Hex(u[10..16])
  {
    HexSplit(u, 4, 6);
    HexSplit(u, 6, 8);
    HexSplit(u, 8, 10);
    HexSplit(u, 10, 16);
    assert u[..16] == u && u[..4] == u[0..4];
  }

  lemma DashedParts(a: string, b: string, c: string, d: string, e: string)
    requires |a| == 8 && |b| == |c| == |d| == 4 && |e| == 12
    ensures Dashed(a + b + c + d + e) == a + "-" + b + "-" + c + "-" + d + "-" + e
  {
    var h := a + b + c + d + e;
    assert h[..8] == a;
    assert h[8..12] == b;
    assert h[12..16] == c;
    assert h[16..20] == d;
    assert h[20..] == e;
  }

  lemma TextSegments(u: UUID)
    ensures Text(u) == Hex(u[0..4]) + "-" + Hex(u[4..6]) + "-" + Hex(u[6..8]) + "-" + Hex(u[8..10]) + "-" + Hex(u[10..16])
  {
    HexSegments(u);
    DashedParts(Hex(u[0..4]), Hex(u[4..6]), Hex(u[6..8]), Hex(u[8..10]), Hex(u[10..16]));
  }

  method Parse(s: string) returns (r: Result<UUID, ParseError>)
    ensures r == ParseText(s)
  {
    if |s| == 36 {
      if s[8] != '-' || s[13] != '-' || s[18] != '-' || s[23] != '-' {
        return Err(MissingDashes);
      }
      assert s[0..8] == s[..8] && s[24..36] == s[24..];
      r := Decode(s[0..8] + s[9..13] + s[14..18] + s[19..23] + s[24..36]);
    } else if |s| == 32 {
      r := Decode(s);
    } else {
      r := Err(BadLength);
    }
  }
}
