/**
 * The client side of a query: requests are written as framed messages, and the reply is read up to and including the
 * next ReadyForQuery message, keeping the first error on the way.
 */
module PgConnection {
  import opened Common
  import opened PgFraming
  import opened PgValues
  import opened PgColumns
  import PgCommandTag

  const ROW_DESCRIPTION: byte := 84   // 'T'
  const DATA_ROW: byte := 68          // 'D'
  const COMMAND_COMPLETE: byte := 67  // 'C'
  const ERROR_RESPONSE: byte := 69    // 'E'
  const READY_FOR_QUERY: byte := 90   // 'Z'

  datatype ResultSet = ResultSet(columns: seq<Column>, rows: seq<seq<Cell>>, rowsAffected: int64)

  /** `Server` carries the body of an ErrorResponse message, unparsed. */
  datatype QueryError = ReadFailed(cause: ReadError) | BadRow(reason: RowError) | Server(body: seq<byte>)

  /** `Panicked`: a column description ran past the end of its message, which aborts the call. */
  datatype Outcome = Rows(rs: ResultSet) | Failed(error: QueryError) | Panicked

  /** What has been gathered so far. */
  datatype Tally = Tally(rs: ResultSet, firstErr: Option<QueryError>)

  const NOTHING := Tally(ResultSet([], [], 0), None)

  /** Effect of one message other than ReadyForQuery; `None` when it aborts the call. */
  function Absorb(t: Tally, m: Message): Option<Tally> {
    if m.typ == ROW_DESCRIPTION then
      match Description(m.body)
      case Some(columns) => Some(t.(rs := t.rs.(columns := columns)))
      case None => None
    else if m.typ == DATA_ROW then
      match DataRow(m.body)
      case Ok(row) => Some(t.(rs := t.rs.(rows := t.rs.rows + [row])))
      case Err(e) =>
        Some(Tally(t.rs.(rows := t.rs.rows + [[]]), if t.firstErr.None? then Some(BadRow(e)) else t.firstErr))
    else if m.typ == COMMAND_COMPLETE then
      Some(t.(rs := t.rs.(rowsAffected := Wrap64(t.rs.rowsAffected + PgCommandTag.TagCount(m.body)))))
    else if m.typ == ERROR_RESPONSE then
      Some(t.(firstErr := if t.firstErr.None? then Some(Server(m.body)) else t.firstErr))
    else Some(t)
  }

  function StatusAfter(status: byte, z: Message): byte {
    if |z.body| > 0 then z.body[0] else status
  }

  function Finish(t: Tally): Outcome {
    if t.firstErr.Some? then Failed(t.firstErr.value) else Rows(t.rs)
  }

  /** Outcome of a call, the input left unread and the transaction status. */
  datatype Collected = Collected(outcome: Outcome, rest: seq<byte>, status: byte)

  function Collect(input: seq<byte>, status: byte, t: Tally): Collected
    decreases |input|
  {
    var Read(result, rest) := ReadMessage(input);
    if result.Err? then Collected(Failed(ReadFailed(result.error)), rest, status)
    else if result.value.typ == READY_FOR_QUERY then Collected(Finish(t), rest, StatusAfter(status, result.value))
    else
      match Absorb(t, result.value)
      case Some(next) => Collect(rest, status, next)
      case None => Collected(Panicked, rest, status)
  }

  // ----- The requests -----

  function QueryRequest(sql: seq<byte>): seq<Message> {
    [Message(81, Cstr(sql))]  // 'Q'
  }

  /** Parse, Bind, Describe, Execute and Sync, all for the unnamed statement and portal, in text format. */
  function ExtendedRequest(sql: seq<byte>, args: seq<Cell>): seq<Message> {
    [Message(80, Cstr([]) + Cstr(sql) + [0, 0]),                                             // 'P'
     Message(66, Cstr([]) + Cstr([]) + [0, 1, 0, 0] + ParamBlock(args) + [0, 1, 0, 0]),      // 'B'
     Message(68, [80] + Cstr([])),                                                           // 'D'
     Message(69, Cstr([]) + [0, 0, 0, 0]),                                                   // 'E'
     Message(83, [])]                                                                        // 'S'
  }

  class Conn {
    /** Everything the backend sends from now until it closes the connection. */
    var input: seq<byte>
    /** Everything written to the backend so far. */
    var output: seq<byte>
    /** Last transaction indicator: idle, in a transaction, or in a failed one. */
    var txStatus: byte

    constructor (input: seq<byte>)
      ensures this.input == input && output == [] && txStatus == 0
    {
      this.input, output, txStatus := input, [], 0;
    }

    method WriteMessage(msgType: byte, body: seq<byte>)
      modifies this`output
      ensures output == old(output) + Frame(Message(msgType, body))
    {
      if msgType != 0 {
        output := output + [msgType];
      }
      output := output + U32(|body| + 4);
      output := output + body;
    }

    method ReadFull(n: nat) returns (r: Result<seq<byte>, ReadError>)
      modifies this`input
      ensures Read(r, input) == Full(old(input), n)
    {
      if |input| >= n {
        r, input := Ok(input[..n]), input[n..];
      } else {
        r, input := Err(if input == [] then Eof else UnexpectedEof), [];
      }
    }

    method ReadMessage() returns (r: Result<Message, ReadError>)
      modifies this`input
      ensures Read(r, input) == PgFraming.ReadMessage(old(input))
    {
      var header := ReadFull(5);
      if header.Err? {
        return Err(header.error);
      }
      var typ := header.value[0];
      var length := ReadU32(header.value[1..5]);
      if length < 4 {
        return Err(InvalidLength);
      }
      var body := ReadFull(length - 4);
      if body.Err? {
        return Err(body.error);
      }
      r := Ok(Message(typ, body.value));
    }

    method CollectResults() returns (outcome: Outcome)
      modifies this`input, this`txStatus
      ensures Collected(outcome, input, txStatus) == Collect(old(input), old(txStatus), NOTHING)
    {
      var columns: seq<Column> := [];
      var rows: seq<seq<Cell>> := [];
      var rowsAffected: int64 := 0;
      var firstErr: Option<QueryError> := None;
      ghost var goal := Collect(input, txStatus, NOTHING);
      while true
        invariant Collect(input, txStatus, Tally(ResultSet(columns, rows, rowsAffected), firstErr)) == goal
        decreases |input|
      {
        ghost var before := Tally(ResultSet(columns, rows, rowsAffected), firstErr);
        var r := ReadMessage();
        if r.Err? {
          return Failed(ReadFailed(r.error));
        }
        var msg := r.value;
        if msg.typ == ROW_DESCRIPTION {
          var described := ParseRowDescription(msg.body);
          if described.None? {
            return Panicked;
          }
          columns := described.value;
        } else if msg.typ == DATA_ROW {
          var row := ParseDataRow(msg.body);
          if row.Err? && firstErr.None? {
            firstErr := Some(BadRow(row.error));
          }
          rows := rows + [if row.Ok? then row.value else []];
        } else if msg.typ == COMMAND_COMPLETE {
          var n := PgCommandTag.ParseCommandTag(msg.body);
          rowsAffected := Wrap64(rowsAffected + n);
        } else if msg.typ == ERROR_RESPONSE {
          if firstErr.None? {
            firstErr := Some(Server(msg.body));
          }
        } else if msg.typ == READY_FOR_QUERY {
          if |msg.body| > 0 {
            txStatus := msg.body[0];
          }
          if firstErr.Some? {
            return Failed(firstErr.value);
          }
          return Rows(ResultSet(columns, rows, rowsAffected));
        }
        assert Absorb(before, msg) == Some(Tally(ResultSet(columns, rows, rowsAffected), firstErr));
      }
    }

    method SimpleQuery(sql: seq<byte>) returns (outcome: Outcome)
      modifies this
      ensures output == old(output) + Frames(QueryRequest(sql))
      ensures Collected(outcome, input, txStatus) == Collect(old(input), old(txStatus), NOTHING)
    {
      WriteMessage(81, Cstr(sql));
      FramesNext(old(output), QueryRequest(sql), 0, old(output));
      outcome := CollectResults();
    }

    method ExecExtended(sql: seq<byte>, args: seq<Cell>) returns (outcome: Outcome)
      modifies this
      ensures output == old(output) + Frames(ExtendedRequest(sql, args))
      ensures Collected(outcome, input, txStatus) == Collect(old(input), old(txStatus), NOTHING)
    {
      var buf := Cstr([]) + Cstr(sql) + [0, 0];
      WriteMessage(80, buf);
      buf := Cstr([]) + Cstr([]) + [0, 1, 0, 0];
      buf := AppendParams(buf, args);
      buf := buf + [0, 1, 0, 0];
      WriteMessage(66, buf);
      WriteMessage(68, [80] + Cstr([]));
      WriteMessage(69, Cstr([]) + [0, 0, 0, 0]);
      WriteMessage(83, []);
      FramesOfFive(old(output), ExtendedRequest(sql, args));
      outcome := CollectResults();
    }
  }

  /** The output after `k` of the messages, and after one more. */
  lemma FramesNext(out: seq<byte>, ms: seq<Message>, k: nat, now: seq<byte>)
    requires k < |ms| && now == out + Frames(ms[..k])
    ensures now + Frame(ms[k]) == out + Frames(ms[..k + 1])
  {
    assert ms[..k + 1] == ms[..k] + [ms[k]];
    FramesLast(ms[..k], ms[k]);
    Regroup(out, Frames(ms[..k]), Frame(ms[k]));
  }

  lemma {:induction false} FramesOfFive(out: seq<byte>, ms: seq<Message>)
    requires |ms| == 5
    ensures out + Frame(ms[0]) + Frame(ms[1]) + Frame(ms[2]) + Frame(ms[3]) + Frame(ms[4]) == out + Frames(ms)
  {
    var f0, f1, f2, f3, f4 := Frame(ms[0]), Frame(ms[1]), Frame(ms[2]), Frame(ms[3]), Frame(ms[4]);
    calc {
      out + f0 + f1 + f2 + f3 + f4;
      { assert out + Frames(ms[..0]) == out; FramesNext(out, ms, 0, out); }
      out + Frames(ms[..1]) + f1 + f2 + f3 + f4;
      { FramesNext(out, ms, 1, out + Frames(ms[..1])); }
      out + Frames(ms[..2]) + f2 + f3 + f4;
      { FramesNext(out, ms, 2, out + Frames(ms[..2])); }
      out + Frames(ms[..3]) + f3 + f4;
      { FramesNext(out, ms, 3, out + Frames(ms[..3])); }
      out + Frames(ms[..4]) + f4;
      { FramesNext(out, ms, 4, out + Frames(ms[..4])); }
      out + Frames(ms[..5]);
      { assert ms[..5] == ms; }
      out + Frames(ms);
    }
  }
}
