/**
 * Message framing of the PostgreSQL frontend/backend protocol, version 3: a type byte, a big-endian length
 * that counts itself, and the body. Integers are written big-endian and truncated to their width.
 */
module PgFraming {
  import opened Common

  const TWO_32 := 0x1_0000_0000

  function U16(n: nat): (b: seq<byte>)
    ensures |b| == 2
  {
    [n / 0x100 % 256, n % 256]
  }

  function U32(n: nat): (b: seq<byte>)
    ensures |b| == 4
  {
    [n / 0x100_0000 % 256, n / 0x1_0000 % 256, n / 0x100 % 256, n % 256]
  }

  function ReadU16(b: seq<byte>): (n: nat)
    requires |b| == 2
    ensures n < 0x1_0000
  {
    b[0] as int * 0x100 + b[1]
  }

  function ReadU32(b: seq<byte>): (n: nat)
    requires |b| == 4
    ensures n < TWO_32
  {
    b[0] as int * 0x100_0000 + b[1] as int * 0x1_0000 + b[2] as int * 0x100 + b[3]
  }

  /** Network byte order: the most significant byte comes first. */
  lemma NetworkOrder(hi: seq<byte>, lo: byte)
    ensures |hi| == 1 ==> ReadU16(hi + [lo]) == 256 * hi[0] as int + lo
    ensures |hi| == 3 ==> ReadU32(hi + [lo]) == 256 * (256 * (256 * hi[0] as int + hi[1]) + hi[2]) + lo
  {
  }

  lemma ReadOfU16(n: nat)
    ensures ReadU16(U16(n)) == n % 0x1_0000
  {
  }

  // A quotient and remainder are determined by the equation they satisfy.

  lemma Split8(n: nat, q: nat, r: nat)
    requires r < 0x100 && n == 0x100 * q + r
    ensures n / 0x100 == q && n % 0x100 == r
  {
  }

  lemma Split16(n: nat, q: nat, r: nat)
    requires r < 0x1_0000 && n == 0x1_0000 * q + r
    ensures n / 0x1_0000 == q && n % 0x1_0000 == r
  {
  }

  lemma Split24(n: nat, q: nat, r: nat)
    requires r < 0x100_0000 && n == 0x100_0000 * q + r
    ensures n / 0x100_0000 == q && n % 0x100_0000 == r
  {
  }

  lemma Split32(n: nat, q: nat, r: nat)
    requires r < TWO_32 && n == TWO_32 * q + r
    ensures n / TWO_32 == q && n % TWO_32 == r
  {
  }

  lemma ReadOfU32(n: nat)
    ensures ReadU32(U32(n)) == n % TWO_32
  {
    var q1, r0 := n / 0x100, n % 0x100;
    var q2, r1 := q1 / 0x100, q1 % 0x100;
    var q3, r2 := q2 / 0x100, q2 % 0x100;
    var q4, r3 := q3 / 0x100, q3 % 0x100;
    Split16(n, q2, 0x100 * r1 + r0);
    Split24(n, q3, 0x1_0000 * r2 + 0x100 * r1 + r0);
    Split32(n, q4, 0x100_0000 * r3 + 0x1_0000 * r2 + 0x100 * r1 + r0);
    assert U32(n) == [r3, r2, r1, r0];
  }

  lemma U32OfRead(b: seq<byte>)
    requires |b| == 4
    ensures U32(ReadU32(b)) == b
  {
    var n, b0: int, b1: int, b2: int := ReadU32(b), b[0], b[1], b[2];
    Split8(n, b0 * 0x1_0000 + b1 * 0x100 + b2, b[3]);
    Split16(n, b0 * 0x100 + b1, b2 * 0x100 + b[3]);
    Split24(n, b0, b1 * 0x1_0000 + b2 * 0x100 + b[3]);
  }

  datatype Message = Message(typ: byte, body: seq<byte>)

  /** Bytes written for one message; a zero type, as in the startup message, is left out. */
  function Frame(m: Message): seq<byte> {
    (if m.typ != 0 then [m.typ] else []) + U32(|m.body| + 4) + m.body
  }

  /** The layout of a message: its type, a length that counts itself and the body, and the body. */
  lemma FrameLayout(m: Message)
    requires m.typ != 0 && |m.body| + 4 < TWO_32
    ensures var f := Frame(m);
            |f| == 5 + |m.body| && f[0] == m.typ && ReadU32(f[1..5]) == |m.body| + 4 && f[5..] == m.body
  {
    ReadOfU32(|m.body| + 4);
    assert Frame(m)[1..5] == U32(|m.body| + 4);
  }

  datatype ReadError = Eof | UnexpectedEof | InvalidLength

  /** Outcome of a read and the input left after it. */
  datatype Read<+T> = Read(result: Result<T, ReadError>, rest: seq<byte>)

  /** Reads exactly `n` bytes; a short input is used up. */
  function Full(input: seq<byte>, n: nat): Read<seq<byte>> {
    if |input| >= n then Read(Ok(input[..n]), input[n..])
    else Read(Err(if input == [] then Eof else UnexpectedEof), [])
  }

  function ReadMessage(input: seq<byte>): (r: Read<Message>)
    ensures r.result.Ok? ==> |r.rest| < |input|
  {
    var header := Full(input, 5);
    if header.result.Err? then Read(Err(header.result.error), header.rest)
    else
      var h := header.result.value;
      var length := ReadU32(h[1..5]);
      if length < 4 then Read(Err(InvalidLength), header.rest)
      else
        var body := Full(header.rest, length - 4);
        if body.result.Err? then Read(Err(body.result.error), body.rest)
        else Read(Ok(Message(h[0], body.result.value)), body.rest)
  }

  /** A message whose type and length survive the frame. */
  predicate Frameable(m: Message) {
    m.typ != 0 && |m.body| + 4 < TWO_32
  }

  lemma FullOfConcat(a: seq<byte>, b: seq<byte>, n: nat)
    requires |a| == n
    ensures Full(a + b, n) == Read(Ok(a), b)
  {
    assert (a + b)[..n] == a && (a + b)[n..] == b;
  }

  lemma ReadOfParts(typ: byte, u: seq<byte>, body: seq<byte>, rest: seq<byte>)
    requires |u| == 4 && ReadU32(u) == |body| + 4
    ensures ReadMessage([typ] + u + body + rest) == Read(Ok(Message(typ, body)), rest)
  {
    var h := [typ] + u;
    assert h[1..5] == u;
    FullOfConcat(h, body + rest, 5);
    FullOfConcat(body, rest, |body|);
    Regroup(h, body, rest);
  }

  lemma ReadOfFrameable(m: Message, rest: seq<byte>)
    requires Frameable(m)
    ensures ReadMessage(Frame(m) + rest) == Read(Ok(m), rest)
  {
    ReadOfU32(|m.body| + 4);
    ReadOfParts(m.typ, U32(|m.body| + 4), m.body, rest);
  }

  /** Input a successful read accounts for, byte by byte. */
  lemma ReadSplits(input: seq<byte>)
    requires ReadMessage(input).result.Ok?
    ensures var Read(result, rest) := ReadMessage(input);
            |result.value.body| + 4 < TWO_32
            && input == [result.value.typ] + U32(|result.value.body| + 4) + result.value.body + rest
  {
    var Read(result, rest) := ReadMessage(input);
    U32OfRead(input[..5][1..5]);
    assert input == input[..5] + input[5..];
    assert input[..5] == [input[0]] + input[..5][1..5];
    assert input[5..] == result.value.body + rest;
  }

  /** Reading a written message gives it back exactly when it has a type and its length fits in 32 bits. */
  lemma ReadOfFrame(m: Message, rest: seq<byte>)
    ensures ReadMessage(Frame(m) + rest) == Read(Ok(m), rest) <==> m.typ != 0 && |m.body| + 4 < TWO_32
  {
    if Frameable(m) {
      ReadOfFrameable(m, rest);
    } else if ReadMessage(Frame(m) + rest) == Read(Ok(m), rest) {
      ReadSplits(Frame(m) + rest);
      assert false;
    }
  }

  function Frames(ms: seq<Message>): seq<byte> {
    if ms == [] then [] else Frame(ms[0]) + Frames(ms[1..])
  }

  lemma {:induction false} FramesConcat(a: seq<Message>, b: seq<Message>)
    ensures Frames(a + b) == Frames(a) + Frames(b)
  {
    if a == [] {
      assert a + b == b;
    } else {
      FramesConcat(a[1..], b);
      assert (a + b)[1..] == a[1..] + b;
      Regroup(Frame(a[0]), Frames(a[1..]), Frames(b));
    }
  }

  lemma {:induction false} FramesLast(ms: seq<Message>, m: Message)
    ensures Frames(ms + [m]) == Frames(ms) + Frame(m)
  {
    FramesConcat(ms, [m]);
    assert [m][1..] == [];
    assert Frames([m]) == Frame(m) + [];
  }

  /** Reads messages until the input is used up; `None` when it does not end at a message boundary. */
  function ReadAll(input: seq<byte>): Option<seq<Message>>
    decreases |input|
  {
    if input == [] then Some([])
    else
      var Read(result, rest) := ReadMessage(input);
      if result.Err? then None
      else
        match ReadAll(rest)
        case Some(ms) => Some([result.value] + ms)
        case None => None
  }

  /** Reading back any concatenation of written messages yields the same messages. */
  lemma {:induction false} ReadBack(ms: seq<Message>)
    requires forall i :: 0 <= i < |ms| ==> Frameable(ms[i])
    ensures ReadAll(Frames(ms)) == Some(ms)
  {
    if ms != [] {
      ReadBack(ms[1..]);
      ReadOfFrameable(ms[0], Frames(ms[1..]));
      assert ms == [ms[0]] + ms[1..];
    }
  }

  /** Whatever input can be read to its end is the concatenation of the messages read, if all of them have a type. */
  lemma {:induction false} WriteBack(input: seq<byte>)
    requires ReadAll(input).Some?
    ensures var ms := ReadAll(input).value;
            (forall i :: 0 <= i < |ms| ==> ms[i].typ != 0) ==> Frames(ms) == input
    decreases |input|
  {
    if input != [] {
      var Read(result, rest) := ReadMessage(input);
      ReadSplits(input);
      WriteBack(rest);
      var ms := ReadAll(input).value;
      assert ms[1..] == ReadAll(rest).value;
      if forall i :: 0 <= i < |ms| ==> ms[i].typ != 0 {
        assert forall i :: 0 <= i < |ms[1..]| ==> ms[1..][i] == ms[i + 1];
        assert ms[0] == result.value && ms[0].typ != 0;
        assert input == Frame(ms[0]) + rest;
      }
    }
  }
}
