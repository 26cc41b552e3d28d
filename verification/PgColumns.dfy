/**
 * The body of a RowDescription message: a column count, then for each column its zero-terminated name, six bytes that
 * are skipped, the type OID and eight more skipped bytes.
 */
module PgColumns {
  import opened Common
  import opened PgFraming

  datatype Column = Column(name: seq<byte>, oid: nat)

  function Cstr(s: seq<byte>): seq<byte> {
    s + [0]
  }

  /** Position of the first zero byte, or the length if there is none. */
  function NulIn(b: seq<byte>): (e: nat)
    ensures e <= |b|
  {
    if b == [] || b[0] == 0 then 0 else 1 + NulIn(b[1..])
  }

  lemma {:induction false} NulInIs(b: seq<byte>, e: nat)
    requires e <= |b| && (forall k :: 0 <= k < e ==> b[k] != 0) && (e == |b| || b[e] == 0)
    ensures NulIn(b) == e
  {
    if e > 0 {
      NulInIs(b[1..], e - 1);
    }
  }

  function Concat(cs: seq<Column>, r: Option<seq<Column>>): Option<seq<Column>> {
    match r
    case Some(more) => Some(cs + more)
    case None => None
  }

  /** Type OID at offset `p`; zero when the body ends before it. */
  function OidAt(b: seq<byte>, p: nat): nat {
    if p + 4 <= |b| then ReadU32(b[p..p + 4]) else 0
  }

  /**
   * Reads `n` columns from the front of `b`. `None` stands for the slice out of range the reader runs into when a
   * further column would start past the end.
   */
  function Describe(b: seq<byte>, n: nat): Option<seq<Column>>
    decreases n
  {
    if n == 0 then Some([])
    else
      var e := NulIn(b);
      var column := Column(b[..e], OidAt(b, e + 7));
      if n == 1 then Some([column])
      else if e + 19 > |b| then None
      else Concat([column], Describe(b[e + 19..], n - 1))
  }

  function Description(body: seq<byte>): Option<seq<Column>> {
    if |body| < 2 then Some([]) else Describe(body[2..], ReadU16(body[..2]))
  }

  lemma ConcatNothing(r: Option<seq<Column>>)
    ensures Concat([], r) == r
  {
    if r.Some? {
      assert [] + r.value == r.value;
    }
  }

  lemma ConcatTwice(a: seq<Column>, b: seq<Column>, r: Option<seq<Column>>)
    ensures Concat(a, Concat(b, r)) == Concat(a + b, r)
  {
    if r.Some? {
      assert a + (b + r.value) == (a + b) + r.value;
    }
  }

  lemma {:induction false} DescribeAt(body: seq<byte>, start: nat, e: nat, n: nat)
    requires n > 0 && start <= e <= |body|
    requires (forall k :: start <= k < e ==> body[k] != 0) && (e == |body| || body[e] == 0)
    ensures Describe(body[start..], n) ==
            var column := Column(body[start..e], OidAt(body, e + 7));
            if n == 1 then Some([column])
            else if e + 19 > |body| then None
            else Concat([column], Describe(body[e + 19..], n - 1))
  {
    var b, l := body[start..], e - start;
    NulInIs(b, l);
    assert b[..l] == body[start..e];
    if e + 11 <= |body| {
      assert b[l + 7..l + 11] == body[e + 7..e + 11];
    }
    if e + 19 <= |body| {
      assert b[l + 19..] == body[e + 19..];
    }
  }

  /** What is known between two columns: the ones read so far, and what the rest of the body adds to them. */
  predicate Pending(r: Option<seq<Column>>, cols: seq<Column>, body: seq<byte>, off: nat, left: nat) {
    if left == 0 then r == Some(cols)
    else if off > |body| then r == None
    else r == Concat(cols, Describe(body[off..], left))
  }

  lemma PendingNext(r: Option<seq<Column>>, cols: seq<Column>, body: seq<byte>, start: nat, e: nat, left: nat)
    requires left > 0 && start <= e <= |body| && Pending(r, cols, body, start, left)
    requires (forall k :: start <= k < e ==> body[k] != 0) && (e == |body| || body[e] == 0)
    ensures Pending(r, cols + [Column(body[start..e], OidAt(body, e + 7))], body, e + 19, left - 1)
  {
    DescribeAt(body, start, e, left);
    if left > 1 && e + 19 <= |body| {
      ConcatTwice(cols, [Column(body[start..e], OidAt(body, e + 7))], Describe(body[e + 19..], left - 1));
    }
  }

  method SkipName(body: seq<byte>, start: nat) returns (off: nat)
    requires start <= |body|
    ensures start <= off <= |body| && forall k :: start <= k < off ==> body[k] != 0
    ensures off == |body| || body[off] == 0
  {
    off := start;
    while off < |body| && body[off] != 0
      invariant start <= off <= |body|
      invariant forall k :: start <= k < off ==> body[k] != 0
    {
      off := off + 1;
    }
  }

  lemma PendingStart(body: seq<byte>)
    requires |body| >= 2
    ensures Pending(Description(body), [], body, 2, ReadU16(body[..2]))
  {
    ConcatNothing(Description(body));
  }

  method ParseRowDescription(body: seq<byte>) returns (r: Option<seq<Column>>)
    ensures r == Description(body)
  {
    if |body| < 2 {
      return Some([]);
    }
    var n := ReadU16(body[..2]);
    var cols: seq<Column> := [];
    var off := 2;
    ghost var whole := Description(body);
    PendingStart(body);
    for i := 0 to n
      invariant Pending(whole, cols, body, off, n - i)
    {
      var start := off;
      if start > |body| {
        return None;
      }
      off := SkipName(body, start);
      PendingNext(whole, cols, body, start, off, n - i);
      var name := body[start..off];
      off := off + 1;
      off := off + 6;
      var oid := if off + 4 <= |body| then ReadU32(body[off..off + 4]) else 0;
      cols := cols + [Column(name, oid)];
      off := off + 4;
      off := off + 8;
    }
    r := Some(cols);
  }

  // ----- Round trip on well-formed descriptions -----

  /** One column as the backend sends it, with the bytes that are skipped. */
  datatype Sent = Sent(column: Column, table: seq<byte>, format: seq<byte>)

  predicate Sendable(s: Sent) {
    |s.table| == 6 && |s.format| == 8 && s.column.oid < TWO_32 && 0 !in s.column.name
  }

  function SentBytes(s: Sent): seq<byte> {
    Cstr(s.column.name) + s.table + U32(s.column.oid) + s.format
  }

  function AllSent(ss: seq<Sent>): seq<byte> {
    if ss == [] then [] else SentBytes(ss[0]) + AllSent(ss[1..])
  }

  function ColumnsSent(ss: seq<Sent>): seq<Column> {
    seq(|ss|, i requires 0 <= i < |ss| => ss[i].column)
  }

  lemma {:induction false} DescribeFirst(s: Sent, oid: seq<byte>, tail: seq<byte>, n: nat)
    requires Sendable(s) && n > 0 && |oid| == 4 && ReadU32(oid) == s.column.oid
    ensures Describe(s.column.name + [0] + s.table + oid + s.format + tail, n)
         == if n == 1 then Some([s.column]) else Concat([s.column], Describe(tail, n - 1))
  {
    var b, e := s.column.name + [0] + s.table + oid + s.format + tail, |s.column.name|;
    assert forall k :: 0 <= k < e ==> b[k] == s.column.name[k];
    assert b[e] == 0 && b[..e] == s.column.name;
    NulInIs(b, e);
    assert b[e + 7..e + 11] == oid;
    assert b[e + 19..] == tail;
  }

  lemma {:induction false} DescribeNext(s: Sent, more: seq<byte>, rest: seq<byte>, n: nat)
    requires Sendable(s) && n > 0
    ensures Describe(SentBytes(s) + more + rest, n)
         == if n == 1 then Some([s.column]) else Concat([s.column], Describe(more + rest, n - 1))
  {
    var oid := U32(s.column.oid);
    ReadOfU32(s.column.oid);
    DescribeFirst(s, oid, more + rest, n);
    Regroup(s.column.name + [0] + s.table + oid + s.format, more, rest);
  }

  lemma {:induction false} DescribeBefore(s: Sent, more: seq<byte>, rest: seq<byte>, n: nat, cols: seq<Column>)
    requires Sendable(s) && n > 0 && Describe(more + rest, n - 1) == Some(cols) && (n == 1 ==> cols == [])
    ensures Describe(SentBytes(s) + more + rest, n) == Some([s.column] + cols)
  {
    DescribeNext(s, more, rest, n);
    assert cols == [] ==> [s.column] + cols == [s.column];
  }

  lemma ColumnsSentFirst(ss: seq<Sent>)
    requires ss != []
    ensures ColumnsSent(ss) == [ss[0].column] + ColumnsSent(ss[1..])
  {
  }

  /** The parser gives back exactly the columns of a well-formed description, whatever follows it. */
  lemma {:induction false} DescribeSent(ss: seq<Sent>, rest: seq<byte>)
    requires forall i :: 0 <= i < |ss| ==> Sendable(ss[i])
    ensures Describe(AllSent(ss) + rest, |ss|) == Some(ColumnsSent(ss))
    decreases |ss|
  {
    if ss == [] {
      assert ColumnsSent(ss) == [];
    } else {
      var s, more := ss[0], ss[1..];
      DescribeSent(more, rest);
      ColumnsSentFirst(ss);
      DescribeBefore(s, AllSent(more), rest, |ss|, ColumnsSent(more));
    }
  }

  lemma {:induction false} DescriptionStart(h: seq<byte>, tail: seq<byte>)
    requires |h| == 2
    ensures Description(h + tail) == Describe(tail, ReadU16(h))
  {
    var body := h + tail;
    assert body[..2] == h && body[2..] == tail;
  }

  lemma {:induction false} DescriptionOfCount(h: seq<byte>, ss: seq<Sent>, rest: seq<byte>)
    requires |h| == 2 && ReadU16(h) == |ss| && forall i :: 0 <= i < |ss| ==> Sendable(ss[i])
    ensures Description(h + (AllSent(ss) + rest)) == Some(ColumnsSent(ss))
  {
    DescribeSent(ss, rest);
    DescriptionStart(h, AllSent(ss) + rest);
  }

  /** Up to 65535 well-formed columns are read back with their names and type OIDs, in order. */
  lemma {:induction false} DescriptionOfSent(ss: seq<Sent>, rest: seq<byte>)
    requires |ss| <= 65535 && forall i :: 0 <= i < |ss| ==> Sendable(ss[i])
    ensures Description(U16(|ss|) + AllSent(ss) + rest) == Some(ColumnsSent(ss))
  {
    ReadOfU16(|ss|);
    DescriptionOfCount(U16(|ss|), ss, rest);
    Regroup(U16(|ss|), AllSent(ss), rest);
  }
}
