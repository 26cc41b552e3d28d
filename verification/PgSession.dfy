/** What a query call returns in terms of the messages the backend sent, and how successive calls stay in step with it. */
module PgSession {
  import opened Common
  import opened PgFraming
  import opened PgValues
  import opened PgColumns
  import opened PgConnection
  import Domain
  import PgCommandTag

  /** A message other than ReadyForQuery that a call reads without aborting. */
  predicate Ordinary(m: Message) {
    Frameable(m) && m.typ != READY_FOR_QUERY && (m.typ == ROW_DESCRIPTION ==> Description(m.body).Some?)
  }

  predicate AllOrdinary(ms: seq<Message>) {
    forall i :: 0 <= i < |ms| ==> Ordinary(ms[i])
  }

  // ----- The meaning of a reply -----

  function ErrorOf(m: Message): Option<QueryError> {
    if m.typ == DATA_ROW && DataRow(m.body).Err? then Some(BadRow(DataRow(m.body).error))
    else if m.typ == ERROR_RESPONSE then Some(Server(m.body))
    else None
  }

  function FirstError(ms: seq<Message>): Option<QueryError> {
    if ms == [] then None
    else
      var e := FirstError(ms[..|ms| - 1]);
      if e.Some? then e else ErrorOf(ms[|ms| - 1])
  }

  function RowsIn(m: Message): seq<seq<Cell>> {
    if m.typ != DATA_ROW then []
    else if DataRow(m.body).Ok? then [DataRow(m.body).value]
    else [[]]
  }

  function RowsOf(ms: seq<Message>): seq<seq<Cell>> {
    if ms == [] then [] else RowsOf(ms[..|ms| - 1]) + RowsIn(ms[|ms| - 1])
  }

  function ColumnsIn(m: Message): seq<Column> {
    match Description(m.body)
    case Some(columns) => columns
    case None => []
  }

  function ColumnsOf(ms: seq<Message>): seq<Column> {
    if ms == [] then []
    else if ms[|ms| - 1].typ == ROW_DESCRIPTION then ColumnsIn(ms[|ms| - 1])
    else ColumnsOf(ms[..|ms| - 1])
  }

  function CountIn(m: Message): int {
    if m.typ == COMMAND_COMPLETE then PgCommandTag.TagCount(m.body) else 0
  }

  function Counts(ms: seq<Message>): seq<int> {
    seq(|ms|, i requires 0 <= i < |ms| => CountIn(ms[i]))
  }

  /** The counts added up in 64 bits. */
  function Affected(ms: seq<Message>): int64 {
    Wrap64(Sum(Counts(ms)))
  }

  function ResultOf(ms: seq<Message>): ResultSet {
    ResultSet(ColumnsOf(ms), RowsOf(ms), Affected(ms))
  }

  /** The first error if there is any, and otherwise all the rows, the last columns and the summed counts. */
  function Summary(ms: seq<Message>): Outcome {
    match FirstError(ms)
    case Some(e) => Failed(e)
    case None => Rows(ResultOf(ms))
  }

  /** The error reported is the first one in order. */
  lemma {:induction false} FirstErrorIsFirst(ms: seq<Message>, e: QueryError)
    ensures FirstError(ms) == Some(e)
        <==> exists k :: 0 <= k < |ms| && ErrorOf(ms[k]) == Some(e) && forall j :: 0 <= j < k ==> ErrorOf(ms[j]) == None
    ensures FirstError(ms) == None <==> forall k :: 0 <= k < |ms| ==> ErrorOf(ms[k]) == None
  {
    if ms != [] {
      var init, last := ms[..|ms| - 1], |ms| - 1;
      FirstErrorIsFirst(init, e);
      assert forall j :: 0 <= j < last ==> init[j] == ms[j];
      if FirstError(init) == Some(e) {
        var k :| 0 <= k < |init| && ErrorOf(init[k]) == Some(e) && forall j :: 0 <= j < k ==> ErrorOf(init[j]) == None;
        assert ErrorOf(ms[k]) == Some(e);
      } else if FirstError(init) == None && ErrorOf(ms[last]) == Some(e) {
        assert forall j :: 0 <= j < last ==> ErrorOf(ms[j]) == None;
      }
    }
  }

  // ----- One call -----

  function TallyOf(ms: seq<Message>): Tally {
    Tally(ResultOf(ms), FirstError(ms))
  }

  lemma SumCountsNext(ms: seq<Message>, m: Message)
    ensures Sum(Counts(ms + [m])) == Sum(Counts(ms)) + CountIn(m)
  {
    assert Counts(ms + [m]) == Counts(ms) + [CountIn(m)];
    assert (Counts(ms) + [CountIn(m)])[..|ms|] == Counts(ms);
  }

  lemma CountNext(ms: seq<Message>, m: Message)
    ensures Affected(ms + [m]) == if m.typ == COMMAND_COMPLETE then Wrap64(Affected(ms) + CountIn(m)) else Affected(ms)
  {
    SumCountsNext(ms, m);
    Domain.WrapAdd(Sum(Counts(ms)), CountIn(m));
  }

  lemma {:induction false} RowsNext(ms: seq<Message>, m: Message)
    ensures RowsOf(ms + [m]) == if m.typ == DATA_ROW then RowsOf(ms) + RowsIn(m) else RowsOf(ms)
  {
    assert (ms + [m])[..|ms|] == ms;
  }

  lemma {:induction false} ColumnsNext(ms: seq<Message>, m: Message)
    ensures ColumnsOf(ms + [m]) == if m.typ == ROW_DESCRIPTION then ColumnsIn(m) else ColumnsOf(ms)
  {
    assert (ms + [m])[..|ms|] == ms;
  }

  lemma {:induction false} ErrorNext(ms: seq<Message>, m: Message)
    ensures FirstError(ms + [m]) == if FirstError(ms).Some? then FirstError(ms) else ErrorOf(m)
  {
    assert (ms + [m])[..|ms|] == ms;
  }

  /** Absorbing a message, in terms of each part of the tally before and after it. */
  lemma AbsorbIs(m: Message, cols: seq<Column>, rows: seq<seq<Cell>>, n: int64, e: Option<QueryError>,
                 cols': seq<Column>, rows': seq<seq<Cell>>, n': int64, e': Option<QueryError>)
    requires Ordinary(m)
    requires cols' == if m.typ == ROW_DESCRIPTION then ColumnsIn(m) else cols
    requires rows' == if m.typ == DATA_ROW then rows + RowsIn(m) else rows
    requires n' == if m.typ == COMMAND_COMPLETE then Wrap64(n + CountIn(m)) else n
    requires e' == if e.Some? then e else ErrorOf(m)
    ensures Absorb(Tally(ResultSet(cols, rows, n), e), m) == Some(Tally(ResultSet(cols', rows', n'), e'))
  {
  }

  lemma AbsorbNext(ms: seq<Message>, m: Message)
    requires Ordinary(m)
    ensures Absorb(TallyOf(ms), m) == Some(TallyOf(ms + [m]))
  {
    ColumnsNext(ms, m);
    RowsNext(ms, m);
    ErrorNext(ms, m);
    CountNext(ms, m);
    AbsorbIs(m, ColumnsOf(ms), RowsOf(ms), Affected(ms), FirstError(ms),
             ColumnsOf(ms + [m]), RowsOf(ms + [m]), Affected(ms + [m]), FirstError(ms + [m]));
  }

  lemma {:induction false} CollectOne(ms: seq<Message>, m: Message, rest: seq<byte>, status: byte)
    requires Ordinary(m)
    ensures Collect(Frame(m) + rest, status, TallyOf(ms)) == Collect(rest, status, TallyOf(ms + [m]))
  {
    ReadOfFrameable(m, rest);
    AbsorbNext(ms, m);
    CollectNext(Frame(m) + rest, status, TallyOf(ms), m, rest, TallyOf(ms + [m]));
  }

  lemma {:induction false} CollectNext(input: seq<byte>, status: byte, t: Tally, m: Message, rest: seq<byte>, next: Tally)
    requires ReadMessage(input) == Read(Ok(m), rest) && m.typ != READY_FOR_QUERY && Absorb(t, m) == Some(next)
    ensures Collect(input, status, t) == Collect(rest, status, next)
  {
  }

  /** Reading through ordinary messages tallies exactly those messages. */
  lemma {:induction false} CollectThrough(ms: seq<Message>, rest: seq<byte>, status: byte)
    requires AllOrdinary(ms)
    ensures Collect(Frames(ms) + rest, status, NOTHING) == Collect(rest, status, TallyOf(ms))
    decreases |ms|
  {
    if ms == [] {
      assert Counts(ms) == [] && Frames(ms) + rest == rest;
    } else {
      var init, m := ms[..|ms| - 1], ms[|ms| - 1];
      assert ms == init + [m];
      calc {
        Collect(Frames(ms) + rest, status, NOTHING);
        { FramesLast(init, m); Regroup(Frames(init), Frame(m), rest); }
        Collect(Frames(init) + (Frame(m) + rest), status, NOTHING);
        { CollectThrough(init, Frame(m) + rest, status); }
        Collect(Frame(m) + rest, status, TallyOf(init));
        { CollectOne(init, m, rest, status); }
        Collect(rest, status, TallyOf(ms));
      }
    }
  }

  /**
   * A call reads through exactly the next ReadyForQuery message. It returns the first error of the messages before it,
   * and otherwise their rows in order, the last column description and the sum of their counts in 64 bits.
   */
  lemma {:induction false} CallReadsOneReply(ms: seq<Message>, z: Message, rest: seq<byte>, status: byte)
    requires AllOrdinary(ms) && z.typ == READY_FOR_QUERY && Frameable(z)
    ensures Collect(Frames(ms) + Frame(z) + rest, status, NOTHING)
         == Collected(Summary(ms), rest, if |z.body| > 0 then z.body[0] else status)
  {
    CollectThrough(ms, Frame(z) + rest, status);
    Regroup(Frames(ms), Frame(z), rest);
    ReadOfFrameable(z, rest);
  }

  /** A call on a connection that breaks off before ReadyForQuery reports the read error, even after a server error. */
  lemma {:induction false} CallCutShort(ms: seq<Message>, tail: seq<byte>, status: byte)
    requires AllOrdinary(ms) && ReadMessage(tail).result.Err?
    ensures Collect(Frames(ms) + tail, status, NOTHING)
         == Collected(Failed(ReadFailed(ReadMessage(tail).result.error)), ReadMessage(tail).rest, status)
  {
    CollectThrough(ms, tail, status);
  }

  /** A column description that runs past its end aborts the call right after its own message. */
  lemma {:induction false} CallAborts(ms: seq<Message>, bad: Message, rest: seq<byte>, status: byte)
    requires AllOrdinary(ms) && Frameable(bad) && bad.typ == ROW_DESCRIPTION && Description(bad.body) == None
    ensures Collect(Frames(ms) + Frame(bad) + rest, status, NOTHING) == Collected(Panicked, rest, status)
  {
    CollectThrough(ms, Frame(bad) + rest, status);
    Regroup(Frames(ms), Frame(bad), rest);
    ReadOfFrameable(bad, rest);
  }

  // ----- Successive calls -----

  /** The messages one call reads: any number of ordinary ones, then ReadyForQuery. */
  datatype Reply = Reply(ms: seq<Message>, z: Message)

  predicate Readable(r: Reply) {
    AllOrdinary(r.ms) && r.z.typ == READY_FOR_QUERY && Frameable(r.z)
  }

  function Stream(rs: seq<Reply>): seq<byte> {
    if rs == [] then [] else Frames(rs[0].ms) + Frame(rs[0].z) + Stream(rs[1..])
  }

  datatype Session = Session(outcomes: seq<Outcome>, rest: seq<byte>, status: byte)

  /** `n` calls one after the other, each starting where the one before stopped. */
  function Calls(input: seq<byte>, status: byte, n: nat): Session
    decreases n
  {
    if n == 0 then Session([], input, status)
    else
      var first := Collect(input, status, NOTHING);
      var later := Calls(first.rest, first.status, n - 1);
      Session([first.outcome] + later.outcomes, later.rest, later.status)
  }

  function LastStatus(rs: seq<Reply>, status: byte): byte {
    if rs == [] then status else LastStatus(rs[1..], StatusAfter(status, rs[0].z))
  }

  function Summaries(rs: seq<Reply>): seq<Outcome> {
    seq(|rs|, i requires 0 <= i < |rs| => Summary(rs[i].ms))
  }

  lemma {:induction false} FirstCall(r: Reply, tail: seq<byte>, status: byte, n: nat)
    requires Readable(r) && n > 0
    ensures var later := Calls(tail, StatusAfter(status, r.z), n - 1);
            Calls(Frames(r.ms) + Frame(r.z) + tail, status, n)
            == Session([Summary(r.ms)] + later.outcomes, later.rest, later.status)
  {
    CallReadsOneReply(r.ms, r.z, tail, status);
  }

  lemma SummariesFirst(rs: seq<Reply>)
    requires rs != []
    ensures Summaries(rs) == [Summary(rs[0].ms)] + Summaries(rs[1..])
  {
  }

  /** Calls stay in step with replies: the i-th call returns the i-th reply, whatever errors earlier replies held. */
  lemma {:induction false} CallsStayInStep(rs: seq<Reply>, rest: seq<byte>, status: byte)
    requires forall i :: 0 <= i < |rs| ==> Readable(rs[i])
    ensures Calls(Stream(rs) + rest, status, |rs|) == Session(Summaries(rs), rest, LastStatus(rs, status))
    decreases |rs|
  {
    if rs == [] {
      assert Stream(rs) + rest == rest && Summaries(rs) == [];
    } else {
      var r, more := rs[0], rs[1..];
      assert Readable(r);
      FirstCall(r, Stream(more) + rest, status, |rs|);
      Regroup(Frames(r.ms) + Frame(r.z), Stream(more), rest);
      CallsStayInStep(more, rest, StatusAfter(status, r.z));
      SummariesFirst(rs);
    }
  }

  // ----- What the backend can read of a request -----

  function UpToNul(b: seq<byte>): seq<byte> {
    b[..NulIn(b)]
  }

  lemma CstrReads(s: seq<byte>, tail: seq<byte>)
    ensures UpToNul(Cstr(s) + tail) == s <==> 0 !in s
  {
    var b := Cstr(s) + tail;
    if 0 !in s {
      assert forall k :: 0 <= k < |s| ==> b[k] == s[k];
      NulInIs(b, |s|);
      assert b[..|s|] == s;
    } else {
      NulInFirst(b);
      var i :| 0 <= i < |s| && s[i] == 0;
      assert b[i] == 0;
    }
  }

  lemma {:induction false} NulInFirst(b: seq<byte>)
    ensures forall k :: 0 <= k < NulIn(b) ==> b[k] != 0
  {
    if b != [] && b[0] != 0 {
      NulInFirst(b[1..]);
      assert forall k :: 1 <= k < NulIn(b) ==> b[k] == b[1..][k - 1];
    }
  }

  lemma BindBody(params: seq<byte>)
    ensures (Cstr([]) + Cstr([]) + [0, 1, 0, 0] + params + [0, 1, 0, 0])[6..] == params + [0, 1, 0, 0]
  {
  }

  lemma RequestIsFrameable(sql: seq<byte>, args: seq<Cell>)
    requires |sql| + 8 < TWO_32 && |ParamBlock(args)| + 14 < TWO_32
    ensures forall i :: 0 <= i < 5 ==> Frameable(ExtendedRequest(sql, args)[i])
  {
  }

  lemma ArgumentsAreUnderstood(sql: seq<byte>, args: seq<Cell>)
    ensures DataRow(ExtendedRequest(sql, args)[1].body[6..]) == Ok(args)
        <==> |args| <= 65535 && forall i :: 0 <= i < |args| ==> Fits(args[i])
  {
    BindBody(ParamBlock(args));
    RowOfParams(args, [0, 1, 0, 0]);
  }

  lemma StatementIsUnderstood(sql: seq<byte>, args: seq<Cell>)
    ensures UpToNul(ExtendedRequest(sql, args)[0].body[1..]) == sql <==> 0 !in sql
  {
    assert ExtendedRequest(sql, args)[0].body[1..] == Cstr(sql) + [0, 0];
    CstrReads(sql, [0, 0]);
  }

  /**
   * A parameterised request whose bodies fit their length field is read back as its five messages. The statement
   * text is seen in full exactly when it holds no zero byte, and the arguments, NULLs included, exactly when there are
   * at most 65535 of them and each is at most 2^31 - 1 bytes long.
   */
  lemma RequestIsUnderstood(sql: seq<byte>, args: seq<Cell>)
    requires |sql| + 8 < TWO_32 && |ParamBlock(args)| + 14 < TWO_32
    ensures ReadAll(Frames(ExtendedRequest(sql, args))) == Some(ExtendedRequest(sql, args))
    ensures UpToNul(ExtendedRequest(sql, args)[0].body[1..]) == sql <==> 0 !in sql
    ensures DataRow(ExtendedRequest(sql, args)[1].body[6..]) == Ok(args)
        <==> |args| <= 65535 && forall i :: 0 <= i < |args| ==> Fits(args[i])
  {
    RequestIsFrameable(sql, args);
    ReadBack(ExtendedRequest(sql, args));
    StatementIsUnderstood(sql, args);
    ArgumentsAreUnderstood(sql, args);
  }

  /** The type bytes by which a client tells the replies apart. */
  lemma ReplyTypes()
    ensures ROW_DESCRIPTION == 'T' as int && DATA_ROW == 'D' as int && COMMAND_COMPLETE == 'C' as int
    ensures ERROR_RESPONSE == 'E' as int && READY_FOR_QUERY == 'Z' as int
  {
  }

  /** A body that holds the unnamed statement, the text and no parameter types. */
  predicate IsParse(body: seq<byte>, sql: seq<byte>) {
    var n := |body|;
    n == |sql| + 4 && body[0] == 0 && body[1..n - 3] == sql && body[n - 3] == 0 && ReadU16(body[n - 2..]) == 0
  }

  /** A body that binds the unnamed statement to the unnamed portal: one format code, text, for all parameters, as many
      parameters as given, and one format code, text, for all result columns. */
  predicate IsBind(body: seq<byte>, count: nat) {
    var n := |body|;
    && n >= 12 && body[0] == 0 && body[1] == 0
    && ReadU16(body[2..4]) == 1 && ReadU16(body[4..6]) == 0 && ReadU16(body[6..8]) == count % 0x1_0000
    && ReadU16(body[n - 4..n - 2]) == 1 && ReadU16(body[n - 2..]) == 0
  }

  lemma BindIsFound(params: seq<byte>)
    requires |params| >= 2
    ensures var body := Cstr([]) + Cstr([]) + [0, 1, 0, 0] + params + [0, 1, 0, 0];
            && |body| == |params| + 10 && body[0] == 0 && body[1] == 0
            && body[2..4] == [0, 1] && body[4..6] == [0, 0] && body[6..8] == params[..2]
            && body[|body| - 4..|body| - 2] == [0, 1] && body[|body| - 2..] == [0, 0]
  {
  }

  lemma ParseIsFound(sql: seq<byte>)
    ensures IsParse(Cstr([]) + Cstr(sql) + [0, 0], sql)
  {
    var body := Cstr([]) + Cstr(sql) + [0, 0];
    assert body[1..|body| - 3] == sql && body[|body| - 2..] == [0, 0];
  }

  lemma BindCounts(args: seq<Cell>)
    ensures IsBind(Cstr([]) + Cstr([]) + [0, 1, 0, 0] + ParamBlock(args) + [0, 1, 0, 0], |args|)
  {
    BindIsFound(ParamBlock(args));
    assert ParamBlock(args)[..2] == U16(|args|);
    ReadOfU16(|args|);
  }

  /** What a backend finds in a parameterised request: Parse, Bind, Describe of the unnamed portal, Execute of the unnamed portal
      without a row limit, and Sync, in this order and nothing else. */
  lemma BackendFinds(sql: seq<byte>, args: seq<Cell>)
    requires |sql| + 8 < TWO_32 && |ParamBlock(args)| + 14 < TWO_32
    ensures var found := ReadAll(Frames(ExtendedRequest(sql, args)));
            && found.Some? && |found.value| == 5
            && found.value[0].typ == 'P' as int && IsParse(found.value[0].body, sql)
            && found.value[1].typ == 'B' as int && IsBind(found.value[1].body, |args|)
            && found.value[2].typ == 'D' as int && found.value[2].body == ['P' as int, 0]
            && found.value[3].typ == 'E' as int && |found.value[3].body| == 5 && found.value[3].body[0] == 0
            && ReadU32(found.value[3].body[1..]) == 0
            && found.value[4].typ == 'S' as int && found.value[4].body == []
  {
    RequestIsUnderstood(sql, args);
    ParseIsFound(sql);
    BindCounts(args);
  }

  /** What a backend finds in a simple request: one Query with the zero-terminated text. */
  lemma BackendFindsQuery(sql: seq<byte>)
    requires |sql| + 5 < TWO_32
    ensures var found := ReadAll(Frames(QueryRequest(sql)));
            found.Some? && |found.value| == 1 && found.value[0].typ == 'Q' as int && found.value[0].body == sql + [0]
  {
    ReadBack(QueryRequest(sql));
  }
}
