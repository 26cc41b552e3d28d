/**
 * Nullable values on the wire: the parameter block of a Bind message and the body of a DataRow message. A value
 * is a signed 32-bit length followed by that many bytes; a negative length stands for NULL.
 */
module PgValues {
  import opened Common
  import opened PgFraming

  /** One nullable value; `None` is NULL. */
  type Cell = Option<seq<byte>>

  const TWO_31 := 0x8000_0000

  function Int32(h: seq<byte>): (n: int)
    requires |h| == 4
    ensures -TWO_31 <= n < TWO_31
  {
    var n := ReadU32(h);
    if n < TWO_31 then n else n - TWO_32
  }

  function Field(c: Cell): seq<byte> {
    match c
    case None => [255, 255, 255, 255]
    case Some(b) => U32(|b|) + b
  }

  function Fields(cs: seq<Cell>): seq<byte> {
    if cs == [] then [] else Field(cs[0]) + Fields(cs[1..])
  }

  function ParamBlock(args: seq<Cell>): seq<byte> {
    U16(|args|) + Fields(args)
  }

  lemma {:induction false} FieldsNext(cs: seq<Cell>, c: Cell)
    ensures Fields(cs + [c]) == Fields(cs) + Field(c)
  {
    if cs == [] {
      assert [c][1..] == [];
      assert Fields([c]) == Field(c) + [];
    } else {
      FieldsNext(cs[1..], c);
      assert (cs + [c])[1..] == cs[1..] + [c];
      Regroup(Field(cs[0]), Fields(cs[1..]), Field(c));
    }
  }

  /** Appends the parameter block to a buffer, one argument at a time. */
  method AppendParams(before: seq<byte>, args: seq<Cell>) returns (buf: seq<byte>)
    ensures buf == before + ParamBlock(args)
  {
    buf := before + U16(|args|);
    assert args[..0] == [];
    for i := 0 to |args|
      invariant buf == before + U16(|args|) + Fields(args[..i])
    {
      FieldsNext(args[..i], args[i]);
      assert args[..i + 1] == args[..i] + [args[i]];
      Regroup(before + U16(|args|), Fields(args[..i]), Field(args[i]));
      match args[i]
      case None =>
        buf := buf + [255, 255, 255, 255];
      case Some(b) =>
        Regroup(buf, U32(|b|), b);
        buf := buf + U32(|b|);
        buf := buf + b;
    }
    assert args[..|args|] == args;
    Regroup(before, U16(|args|), Fields(args));
  }

  datatype RowError = Truncated | TruncatedValue

  type Row = Result<seq<Cell>, RowError>

  function Prepend(cs: seq<Cell>, r: Row): Row {
    match r
    case Ok(more) => Ok(cs + more)
    case Err(e) => Err(e)
  }

  /** Reads `n` values from the front of `b`; bytes after them are ignored. */
  function ParseFields(b: seq<byte>, n: nat): (r: Row)
    ensures r.Ok? ==> |r.value| == n
    decreases n
  {
    if n == 0 then Ok([])
    else if |b| < 4 then Err(Truncated)
    else
      var l, tail := Int32(b[..4]), b[4..];
      if l < 0 then Prepend([None], ParseFields(tail, n - 1))
      else if |tail| < l then Err(TruncatedValue)
      else Prepend([Some(tail[..l])], ParseFields(tail[l..], n - 1))
  }

  function DataRow(body: seq<byte>): Row {
    if |body| < 2 then Ok([]) else ParseFields(body[2..], ReadU16(body[..2]))
  }

  lemma PrependNothing(r: Row)
    ensures Prepend([], r) == r
  {
    if r.Ok? {
      assert [] + r.value == r.value;
    }
  }

  lemma PrependTwice(a: seq<Cell>, b: seq<Cell>, r: Row)
    ensures Prepend(a, Prepend(b, r)) == Prepend(a + b, r)
  {
    if r.Ok? {
      assert a + (b + r.value) == (a + b) + r.value;
    }
  }

  /** What the value starting at `off` contributes, in terms of offsets into the whole body. */
  lemma {:induction false} ParseAt(body: seq<byte>, off: nat, n: nat)
    requires n > 0 && off + 4 <= |body|
    ensures var l, after := Int32(body[off..off + 4]), off + 4;
            ParseFields(body[off..], n) ==
            if l < 0 then Prepend([None], ParseFields(body[after..], n - 1))
            else if after + l > |body| then Err(TruncatedValue)
            else Prepend([Some(body[after..after + l])], ParseFields(body[after + l..], n - 1))
  {
    var l, after, b := Int32(body[off..off + 4]), off + 4, body[off..];
    assert b[..4] == body[off..after] && b[4..] == body[after..];
    if 0 <= l && after + l <= |body| {
      assert b[4..][..l] == body[after..after + l] && b[4..][l..] == body[after + l..];
    }
  }

  /** What is known between two values: those read so far, and what the rest of the body adds to them. */
  predicate Pending(r: Row, cells: seq<Cell>, body: seq<byte>, off: nat, left: nat)
    requires off <= |body|
  {
    r == Prepend(cells, ParseFields(body[off..], left))
  }

  lemma PendingNext(r: Row, cells: seq<Cell>, body: seq<byte>, off: nat, left: nat)
    requires left > 0 && off + 4 <= |body| && Pending(r, cells, body, off, left)
    ensures var l, after := Int32(body[off..off + 4]), off + 4;
            if l < 0 then Pending(r, cells + [None], body, after, left - 1)
            else if after + l > |body| then r == Err(TruncatedValue)
            else Pending(r, cells + [Some(body[after..after + l])], body, after + l, left - 1)
  {
    ParseAt(body, off, left);
    var l, after := Int32(body[off..off + 4]), off + 4;
    if l < 0 {
      PrependTwice(cells, [None], ParseFields(body[after..], left - 1));
    } else if after + l <= |body| {
      PrependTwice(cells, [Some(body[after..after + l])], ParseFields(body[after + l..], left - 1));
    }
  }

  lemma PendingStart(body: seq<byte>)
    requires |body| >= 2
    ensures Pending(DataRow(body), [], body, 2, ReadU16(body[..2]))
  {
    PrependNothing(DataRow(body));
  }

  lemma PendingDone(r: Row, cells: seq<Cell>, body: seq<byte>, off: nat)
    requires off <= |body| && Pending(r, cells, body, off, 0)
    ensures r == Ok(cells)
  {
    assert cells + [] == cells;
  }

  lemma PendingCut(r: Row, cells: seq<Cell>, body: seq<byte>, off: nat, left: nat)
    requires left > 0 && off <= |body| < off + 4 && Pending(r, cells, body, off, left)
    ensures r == Err(Truncated)
  {
  }

  method ParseDataRow(body: seq<byte>) returns (r: Row)
    ensures r == DataRow(body)
  {
    if |body| < 2 {
      return Ok([]);
    }
    var n := ReadU16(body[..2]);
    var row := new Cell[n](_ => None);
    var off := 2;
    ghost var whole, done := DataRow(body), [];
    PendingStart(body);
    for i := 0 to n
      invariant row[..i] == done
      invariant off <= |body| && Pending(whole, done, body, off, n - i)
    {
      if off + 4 > |body| {
        PendingCut(whole, done, body, off, n - i);
        return Err(Truncated);
      }
      PendingNext(whole, done, body, off, n - i);
      var l := Int32(body[off..off + 4]);
      off := off + 4;
      var cell: Cell := None;
      if l >= 0 {
        if off + l > |body| {
          return Err(TruncatedValue);
        }
        cell := Some(body[off..off + l]);
        off := off + l;
      }
      row[i] := cell;
      done := done + [cell];
    }
    PendingDone(whole, done, body, off);
    assert row[..n] == row[..];
    r := Ok(row[..]);
  }

  // ----- Round trip -----

  predicate Fits(c: Cell) {
    c.Some? ==> |c.value| <= 0x7FFF_FFFF
  }

  /** A field at the front, taken apart into its header and payload. */
  lemma {:induction false} ParseField(h: seq<byte>, v: seq<byte>, tail: seq<byte>, n: nat)
    requires n > 0 && |h| == 4 && |v| == (if Int32(h) < 0 then 0 else Int32(h))
    ensures ParseFields(h + v + tail, n)
         == Prepend([if Int32(h) < 0 then None else Some(v)], ParseFields(tail, n - 1))
  {
    var input := h + v + tail;
    assert input[..4] == h && input[4..] == v + tail;
    assert (v + tail)[..|v|] == v && (v + tail)[|v|..] == tail;
  }

  lemma {:induction false} LongValueIsLost(b: seq<byte>, tail: seq<byte>, n: nat)
    requires n > 0 && |b| >= TWO_31
    ensures var r := ParseFields(Field(Some(b)) + tail, n); r.Ok? ==> r.value[0] != Some(b)
  {
    var h := U32(|b|);
    ReadOfU32(|b|);
    LongHeader(h, |b|, h + b + tail, n);
  }

  lemma {:induction false} LongHeader(h: seq<byte>, size: nat, input: seq<byte>, n: nat)
    requires |h| == 4 && size >= TWO_31 && ReadU32(h) == size % TWO_32 && h <= input && n > 0
    ensures var r := ParseFields(input, n); r.Ok? ==> r.value[0].Some? ==> |r.value[0].value| != size
  {
    assert input[..4] == h;
    assert Int32(h) < size;
  }

  /** A value read back from its own field is the value exactly when its length fits in 31 bits. */
  lemma {:induction false} FieldReads(c: Cell, tail: seq<byte>, n: nat)
    requires n > 0
    ensures Fits(c) ==> ParseFields(Field(c) + tail, n) == Prepend([c], ParseFields(tail, n - 1))
    ensures !Fits(c) ==> var r := ParseFields(Field(c) + tail, n); r.Ok? ==> r.value[0] != c
  {
    match c
    case None =>
      ParseField(Field(c), [], tail, n);
      assert Field(c) + [] == Field(c);
    case Some(b) =>
      if |b| < TWO_31 {
        ReadOfU32(|b|);
        ParseField(U32(|b|), b, tail, n);
      } else {
        LongValueIsLost(b, tail, n);
      }
  }

  lemma {:induction false} FieldsRead(args: seq<Cell>, rest: seq<byte>)
    ensures ParseFields(Fields(args) + rest, |args|) == Ok(args)
        <==> forall i :: 0 <= i < |args| ==> Fits(args[i])
  {
    if args != [] {
      var c, more := args[0], args[1..];
      FieldsRead(more, rest);
      Regroup(Field(c), Fields(more), rest);
      FieldReads(c, Fields(more) + rest, |args|);
      assert args == [c] + more;
      if Fits(c) {
        var r := ParseFields(Fields(more) + rest, |more|);
        if r.Ok? && [c] + r.value == args {
          assert r.value == more by { assert ([c] + r.value)[1..] == r.value; }
        }
        if forall i :: 0 <= i < |more| ==> Fits(more[i]) {
          forall i | 0 <= i < |args| ensures Fits(args[i]) {
            assert i > 0 ==> args[i] == more[i - 1];
          }
        } else {
          var i :| 0 <= i < |more| && !Fits(more[i]);
          assert args[i + 1] == more[i];
        }
      }
    }
  }

  lemma {:induction false} RowStart(h: seq<byte>, fields: seq<byte>)
    requires |h| == 2
    ensures DataRow(h + fields) == ParseFields(fields, ReadU16(h))
  {
    var body := h + fields;
    assert body[..2] == h && body[2..] == fields;
  }

  lemma {:induction false} RowOfCount(h: seq<byte>, args: seq<Cell>, rest: seq<byte>)
    requires |h| == 2 && (ReadU16(h) == |args| || |args| > 65535)
    ensures DataRow(h + (Fields(args) + rest)) == Ok(args)
        <==> |args| <= 65535 && forall i :: 0 <= i < |args| ==> Fits(args[i])
  {
    RowStart(h, Fields(args) + rest);
    if |args| <= 65535 {
      FieldsRead(args, rest);
    }
  }

  /**
   * Reading the parameter block back as a row, with anything after it, gives exactly the arguments, NULLs included,
   * if and only if there are at most 65535 of them and none is longer than 2^31 - 1 bytes.
   */
  lemma RowOfParams(args: seq<Cell>, rest: seq<byte>)
    ensures DataRow(ParamBlock(args) + rest) == Ok(args)
        <==> |args| <= 65535 && forall i :: 0 <= i < |args| ==> Fits(args[i])
  {
    ReadOfU16(|args|);
    RowOfCount(U16(|args|), args, rest);
    Regroup(U16(|args|), Fields(args), rest);
  }

  // ----- What the row parser accepts -----

  /** A length header with the bytes it announces. */
  datatype RawField = RawField(header: seq<byte>, payload: seq<byte>)

  predicate WellFormed(f: RawField) {
    |f.header| == 4 && |f.payload| == (if Int32(f.header) < 0 then 0 else Int32(f.header))
  }

  function Bytes(fs: seq<RawField>): seq<byte> {
    if fs == [] then [] else fs[0].header + fs[0].payload + Bytes(fs[1..])
  }

  function CellOf(f: RawField): Cell
    requires WellFormed(f)
  {
    if Int32(f.header) < 0 then None else Some(f.payload)
  }

  /** `fs` are complete fields lying one after the other at the front of `b`. */
  predicate Layout(b: seq<byte>, fs: seq<RawField>) {
    (forall i :: 0 <= i < |fs| ==> WellFormed(fs[i])) && Bytes(fs) <= b
  }

  function CellsOf(fs: seq<RawField>): seq<Cell>
    requires forall i :: 0 <= i < |fs| ==> WellFormed(fs[i])
  {
    seq(|fs|, i requires 0 <= i < |fs| => CellOf(fs[i]))
  }

  /** No complete field starts here: the length itself, or the announced bytes, are cut short. */
  predicate Stuck(b: seq<byte>, e: RowError) {
    match e
    case Truncated => |b| < 4
    case TruncatedValue => |b| >= 4 && Int32(b[..4]) > |b| - 4
  }

  lemma CellsOfFirst(fs: seq<RawField>)
    requires fs != [] && forall i :: 0 <= i < |fs| ==> WellFormed(fs[i])
    ensures CellsOf(fs) == [CellOf(fs[0])] + CellsOf(fs[1..])
  {
  }

  lemma {:induction false} BytesFirst(fs: seq<RawField>, left: seq<byte>)
    requires fs != []
    ensures Bytes(fs) + left == fs[0].header + fs[0].payload + (Bytes(fs[1..]) + left)
  {
    Regroup(fs[0].header + fs[0].payload, Bytes(fs[1..]), left);
  }

  lemma ParseFirst(fs: seq<RawField>, left: seq<byte>, n: nat)
    requires fs != [] && n > 0 && WellFormed(fs[0])
    ensures ParseFields(Bytes(fs) + left, n) == Prepend([CellOf(fs[0])], ParseFields(Bytes(fs[1..]) + left, n - 1))
  {
    BytesFirst(fs, left);
    ParseField(fs[0].header, fs[0].payload, Bytes(fs[1..]) + left, n);
  }

  lemma {:induction false} ParseNone(left: seq<byte>, n: nat)
    ensures ParseFields(Bytes([]) + left, n) == Prepend(CellsOf([]), ParseFields(left, n))
  {
    assert Bytes([]) + left == left && CellsOf([]) == [];
    PrependNothing(ParseFields(left, n));
  }

  lemma ParseMore(fs: seq<RawField>, left: seq<byte>, n: nat, rest: Row)
    requires 0 < |fs| <= n && forall i :: 0 <= i < |fs| ==> WellFormed(fs[i])
    requires ParseFields(Bytes(fs[1..]) + left, n - 1) == Prepend(CellsOf(fs[1..]), rest)
    ensures ParseFields(Bytes(fs) + left, n) == Prepend(CellsOf(fs), rest)
  {
    ParseFirst(fs, left, n);
    PrependTwice([CellOf(fs[0])], CellsOf(fs[1..]), rest);
    CellsOfFirst(fs);
  }

  lemma {:induction false} ParseBytes(fs: seq<RawField>, left: seq<byte>, n: nat)
    requires |fs| <= n && forall i :: 0 <= i < |fs| ==> WellFormed(fs[i])
    ensures ParseFields(Bytes(fs) + left, n) == Prepend(CellsOf(fs), ParseFields(left, n - |fs|))
    decreases |fs|
  {
    if fs == [] {
      ParseNone(left, n);
    } else {
      ParseBytes(fs[1..], left, n - 1);
      ParseMore(fs, left, n, ParseFields(left, n - |fs|));
    }
  }

  lemma ParseThroughLayout(b: seq<byte>, fs: seq<RawField>, n: nat)
    requires Layout(b, fs) && |fs| <= n
    ensures ParseFields(b, n) == Prepend(CellsOf(fs), ParseFields(b[|Bytes(fs)|..], n - |fs|))
  {
    ParseBytes(fs, b[|Bytes(fs)|..], n);
    assert b == Bytes(fs) + b[|Bytes(fs)|..];
  }

  /** Every input starts with as many complete fields as were asked for, or gets stuck after fewer. */
  lemma {:induction false} LayoutOf(b: seq<byte>, n: nat) returns (fs: seq<RawField>)
    ensures Layout(b, fs) && |fs| <= n
    ensures |fs| < n ==> exists e :: Stuck(b[|Bytes(fs)|..], e)
    decreases n
  {
    fs := [];
    if n == 0 {
      return;
    }
    if |b| < 4 {
      assert Stuck(b[|Bytes(fs)|..], Truncated);
      return;
    }
    var l := if Int32(b[..4]) < 0 then 0 else Int32(b[..4]);
    if |b| - 4 < l {
      assert b[|Bytes(fs)|..] == b;
      assert Stuck(b[|Bytes(fs)|..], TruncatedValue);
      return;
    }
    var f := RawField(b[..4], b[4..4 + l]);
    var more := LayoutOf(b[4 + l..], n - 1);
    fs := [f] + more;
    assert fs[1..] == more;
    assert b == f.header + f.payload + b[4 + l..];
    assert b[|Bytes(fs)|..] == b[4 + l..][|Bytes(more)|..];
  }

  /** A row is read exactly when the declared number of complete fields is there, and it holds their values. */
  lemma {:induction false} ReadsCompleteFields(b: seq<byte>, n: nat, cs: seq<Cell>)
    ensures ParseFields(b, n) == Ok(cs) <==> exists fs :: Layout(b, fs) && |fs| == n && CellsOf(fs) == cs
  {
    if ParseFields(b, n) == Ok(cs) {
      var fs := LayoutOf(b, n);
      ParseThroughLayout(b, fs, n);
    }
    forall fs | Layout(b, fs) && |fs| == n && CellsOf(fs) == cs ensures ParseFields(b, n) == Ok(cs) {
      ParseThroughLayout(b, fs, n);
      assert cs + [] == cs;
    }
  }

  /** Reading fails exactly when a declared field is cut short, with the error that says where it is cut. */
  lemma {:induction false} FailsOnCutField(b: seq<byte>, n: nat, e: RowError)
    ensures ParseFields(b, n) == Err(e) <==> exists fs :: Layout(b, fs) && |fs| < n && Stuck(b[|Bytes(fs)|..], e)
  {
    if ParseFields(b, n) == Err(e) {
      var fs := LayoutOf(b, n);
      ParseThroughLayout(b, fs, n);
    }
    forall fs | Layout(b, fs) && |fs| < n && Stuck(b[|Bytes(fs)|..], e) ensures ParseFields(b, n) == Err(e) {
      ParseThroughLayout(b, fs, n);
    }
  }

  /** On the wire NULL is the length -1 and nothing else is; other values are preceded by their length. */
  lemma FieldLayout(c: Cell)
    ensures |Field(c)| >= 4
    ensures c.None? ==> Field(c) == [255, 255, 255, 255] && Int32(Field(c)) == -1
    ensures c.Some? && |c.value| < TWO_31 ==> Int32(Field(c)[..4]) == |c.value| && Field(c)[4..] == c.value
  {
    if c.Some? {
      ReadOfU32(|c.value|);
      assert Field(c)[..4] == U32(|c.value|);
    }
  }
}
