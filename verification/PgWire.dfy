/**
 The incremental PostgreSQL wire reader (protocol version 3): `fill`, `read_message` and the
 simple-query loop, against parsing of the whole byte stream. Text stays as bytes.
 */
module PgWire {
  import opened Bytes
  import opened Wrappers

  type Text = seq<byte>
  type Cells = seq<Option<seq<byte>>>

  datatype Field = Field(name: Text, typeOid: int)

  datatype Message =
    | ReadyForQuery(status: byte)
    | RowDescription(fields: seq<Field>)
    | DataRow(cells: Cells)
    | CommandComplete(tag: Text)
    | ErrorResponse(message: Text)
    | NoticeResponse(message: Text)
    | EmptyQueryResponse
    | CopyData(data: seq<byte>)
    | Other(kind: byte)

  const READY: byte := 90      // 'Z'
  const DESCRIPTION: byte := 84 // 'T'
  const DATA: byte := 68       // 'D'
  const COMPLETE: byte := 67   // 'C'
  const ERROR: byte := 69      // 'E'
  const NOTICE: byte := 78     // 'N'
  const EMPTY: byte := 73      // 'I'
  const COPY_DATA: byte := 100 // 'd'

  /** The text used when an error carries no message field. */
  const UNKNOWN_ERROR: Text :=
    [117, 110, 107, 110, 111, 119, 110, 32, 115, 101, 114, 118, 101, 114, 32, 101, 114, 114, 111, 114]

  // ----- bodies -----

  function CStr(s: seq<byte>): Text {
    s[..NulAt(s)]
  }

  function AfterCStr(s: seq<byte>): seq<byte> {
    if NulAt(s) < |s| then s[NulAt(s) + 1..] else []
  }

  function I16(s: seq<byte>): int
    requires |s| == 2
  {
    AsSigned(FromBE(s), 0x1_0000)
  }

  /** `n` field descriptions; running out of bytes is a panic. */
  function Fields(n: nat, s: seq<byte>): Result<seq<Field>> {
    if n == 0 then Ok([])
    else
      var rest := AfterCStr(s);
      if |rest| < 18 then Err
      else Prepend([Field(CStr(s), BigI32(rest[6..10]))], Fields(n - 1, rest[18..]))
  }

  function CellsOf(n: nat, s: seq<byte>): Result<Cells> {
    if n == 0 then Ok([])
    else if |s| < 4 then Err
    else
      var len := BigI32(s[..4]);
      var rest := s[4..];
      if len < 0 then Prepend([None], CellsOf(n - 1, rest))
      else
        var take := if len < |rest| then len else |rest|;
        Prepend([Some(rest[..take])], CellsOf(n - 1, rest[take..]))
  }

  /** The last 'M' field of an error, or `found`. */
  function MessageField(s: seq<byte>, found: Text): Text
    decreases |s|
  {
    if s == [] || s[0] == 0 then found
    else MessageField(AfterCStr(s[1..]), if s[0] == 77 then CStr(s[1..]) else found)
  }

  function DecodeBody(tag: byte, body: seq<byte>): Result<Message> {
    if tag == READY then Ok(ReadyForQuery(if body == [] then EMPTY else body[0]))
    else if tag == DESCRIPTION then
      if |body| < 2 || I16(body[..2]) < 0 then Err
      else match Fields(I16(body[..2]), body[2..]) case Err => Err case Ok(f) => Ok(RowDescription(f))
    else if tag == DATA then
      if |body| < 2 || I16(body[..2]) < 0 then Err
      else match CellsOf(I16(body[..2]), body[2..]) case Err => Err case Ok(c) => Ok(DataRow(c))
    else if tag == COMPLETE then Ok(CommandComplete(CStr(body)))
    else if tag == ERROR then Ok(ErrorResponse(MessageField(body, UNKNOWN_ERROR)))
    else if tag == NOTICE then Ok(NoticeResponse(MessageField(body, UNKNOWN_ERROR)))
    else if tag == EMPTY then Ok(EmptyQueryResponse)
    else if tag == COPY_DATA then Ok(CopyData(body))
    else Ok(Other(tag))
  }

  /** One message off the front of the stream and what is left; `Err` if there is none to be had. */
  function ParseOne(s: seq<byte>): Result<(Message, seq<byte>)> {
    if |s| < 5 then Err
    else
      var len := BigI32(s[1..5]);
      if len < 4 || |s| < 1 + len then Err
      else match DecodeBody(s[0], s[5..1 + len])
        case Err => Err
        case Ok(m) => Ok((m, s[1 + len..]))
  }

  // ----- the loops that read bodies -----

  method ReadFields(n: nat, body: seq<byte>) returns (r: Result<seq<Field>>)
    ensures r == Fields(n, body)
  {
    hide CStr, AfterCStr, BigI32;
    var fields: seq<Field> := [];
    var data := body;
    PrependJoin(fields, [], Fields(n, body));
    for i := 0 to n
      invariant Fields(n, body) == Prepend(fields, Fields(n - i, data))
    {
      var name, rest := CStr(data), AfterCStr(data);
      if |rest| < 18 { return Err; }
      var field := Field(name, BigI32(rest[6..10]));
      PrependJoin(fields, [field], Fields(n - i - 1, rest[18..]));
      fields := fields + [field];
      data := rest[18..];
    }
    PrependJoin(fields, [], Ok([]));
    return Ok(fields);
  }

  method ReadCells(n: nat, body: seq<byte>) returns (r: Result<Cells>)
    ensures r == CellsOf(n, body)
  {
    var cells: Cells := [];
    var data := body;
    PrependJoin(cells, [], CellsOf(n, body));
    for i := 0 to n
      invariant CellsOf(n, body) == Prepend(cells, CellsOf(n - i, data))
    {
      if |data| < 4 { return Err; }
      var len := BigI32(data[..4]);
      data := data[4..];
      var cell := None;
      if len >= 0 {
        var take := if len < |data| then len else |data|;
        cell := Some(data[..take]);
        data := data[take..];
      }
      PrependJoin(cells, [cell], CellsOf(n - i - 1, data));
      cells := cells + [cell];
    }
    PrependJoin(cells, [], Ok([]));
    return Ok(cells);
  }

  method ReadErrorFields(body: seq<byte>) returns (message: Text)
    ensures message == MessageField(body, UNKNOWN_ERROR)
  {
    message := UNKNOWN_ERROR;
    var data := body;
    while data != []
      invariant MessageField(data, message) == MessageField(body, UNKNOWN_ERROR)
      decreases |data|
    {
      var code := data[0];
      data := data[1..];
      if code == 0 { return; }
      var value := CStr(data);
      data := AfterCStr(data);
      if code == 77 { message := value; }
    }
  }

  method DecodeMessage(tag: byte, body: seq<byte>) returns (r: Result<Message>)
    ensures r == DecodeBody(tag, body)
  {
    if tag == DESCRIPTION || tag == DATA {
      if |body| < 2 || I16(body[..2]) < 0 { return Err; }
    }
    if tag == DESCRIPTION {
      var fields := ReadFields(I16(body[..2]), body[2..]);
      return match fields case Err => Err case Ok(f) => Ok(RowDescription(f));
    } else if tag == DATA {
      var cells := ReadCells(I16(body[..2]), body[2..]);
      return match cells case Err => Err case Ok(c) => Ok(DataRow(c));
    } else if tag == ERROR || tag == NOTICE {
      var text := ReadErrorFields(body);
      return Ok(if tag == ERROR then ErrorResponse(text) else NoticeResponse(text));
    } else if tag == COMPLETE {
      return Ok(CommandComplete(CStr(body)));
    } else if tag == READY {
      return Ok(ReadyForQuery(if body == [] then EMPTY else body[0]));
    } else if tag == EMPTY {
      return Ok(EmptyQueryResponse);
    } else if tag == COPY_DATA {
      return Ok(CopyData(body));
    }
    return Ok(Other(tag));
  }

  // ----- the reader -----

  function Concat(chunks: seq<seq<byte>>): seq<byte> {
    if chunks == [] then [] else chunks[0] + Concat(chunks[1..])
  }

  datatype Row = Row(columns: seq<Text>, cells: Cells)
  datatype QueryResult = Rows(columns: seq<Text>, rows: seq<Row>, tag: Option<Text>) | ServerError(message: Text)

  class Conn {
    var readBuf: seq<byte>
    var incoming: seq<seq<byte>> // what the socket's reads will return, then end of file

    /** A read returns at least one byte until the end of file. */
    ghost predicate Valid()
      reads this
    {
      forall i :: 0 <= i < |incoming| ==> incoming[i] != []
    }

    /** All bytes not yet consumed, however they are cut. */
    ghost function Stream(): seq<byte>
      reads this
    {
      readBuf + Concat(incoming)
    }

    constructor (chunks: seq<seq<byte>>)
      requires forall i :: 0 <= i < |chunks| ==> chunks[i] != []
      ensures Valid() && Stream() == Concat(chunks)
    {
      readBuf, incoming := [], chunks;
      new;
      assert [] + Concat(chunks) == Concat(chunks);
    }

    /** Buffers at least `n` bytes, or finds that the peer closed too early. */
    method Fill(n: nat) returns (ok: bool)
      requires Valid()
      modifies this
      ensures Valid() && Stream() == old(Stream())
      ensures ok <==> |Stream()| >= n
      ensures ok ==> |readBuf| >= n
    {
      while |readBuf| < n
        invariant Valid() && Stream() == old(Stream())
        decreases |incoming|
      {
        if incoming == [] { return false; }
        assert readBuf + (incoming[0] + Concat(incoming[1..])) == (readBuf + incoming[0]) + Concat(incoming[1..]);
        readBuf, incoming := readBuf + incoming[0], incoming[1..];
      }
      return true;
    }

    /** Returns exactly the next message of the whole stream and leaves exactly the rest. */
    method ReadMessage() returns (r: Result<Message>)
      requires Valid()
      modifies this
      ensures Valid()
      ensures match ParseOne(old(Stream()))
        case Ok((m, rest)) => r == Ok(m) && Stream() == rest
        case Err => r == Err
    {
      ghost var s := Stream();
      var ok := Fill(5);
      if !ok { return Err; }
      var tag := readBuf[0];
      var len := BigI32(readBuf[1..5]);
      assert readBuf[1..5] == s[1..5];
      if len < 4 { return Err; }
      var total := 1 + len;
      ok := Fill(total);
      if !ok { return Err; }
      var body := readBuf[5..total];
      assert body == s[5..total];
      assert readBuf[total..] + Concat(incoming) == s[total..];
      readBuf := readBuf[total..];
      r := DecodeMessage(tag, body);
    }

    /** Skips messages through the first ReadyForQuery. */
    method DrainToReady(ghost ws: seq<Wire>, ghost rest: seq<byte>) returns (ok: bool)
      requires Valid() && ReplyOk(ws) && Stream() == EncodeAll(ws) + rest
      modifies this
      ensures Valid() && ok && Stream() == rest
    {
      hide WireOk, View, ParseOne, EncodeAll;
      ghost var j := 0;
      assert ws[0..] == ws;
      while true
        invariant 0 <= j < |ws| && Valid() && Stream() == EncodeAll(ws[j..]) + rest
        decreases |ws| - j
      {
        HeadParses(ws[j..], rest);
        assert ws[j..][1..] == ws[j + 1..];
        var skipped := ReadMessage();
        if skipped.Err? { return false; }
        if skipped.value.ReadyForQuery? {
          NothingLeft(ws[j + 1..], rest);
          return true;
        }
        j := j + 1;
      }
    }

    /**
     The simple-query loop. On a stream of well-formed messages that has a ReadyForQuery, it
     consumes exactly through the first one, also after an error.
     */
    method Query(ghost ws: seq<Wire>, ghost rest: seq<byte>) returns (r: Result<QueryResult>)
      requires Valid() && ReplyOk(ws) && Stream() == EncodeAll(ws) + rest
      modifies this
      ensures Valid() && Stream() == rest
      ensures r == Ok(Outcome(Views(ws)))
    {
      hide WireOk, View, ParseOne, EncodeAll, Views, FirstError;
      var columns: seq<Text>, rows: seq<Row>, tag: Option<Text> := [], [], None;
      ghost var ms, i := Views(ws), 0;
      ViewsAt(ws);
      assert ws[0..] == ws;
      while true
        invariant 0 <= i < |ws| && Valid() && Stream() == EncodeAll(ws[i..]) + rest
        invariant forall k :: 0 <= k < i ==> !ms[k].ErrorResponse?
        invariant columns == ColumnsAfter(ms[..i]) && rows == RowsAfter(ms[..i]) && tag == TagAfter(ms[..i])
        decreases |ws| - i
      {
        HeadParses(ws[i..], rest);
        assert ws[i..][1..] == ws[i + 1..];
        Snoc(ms, i);
        var next := ReadMessage();
        if next.Err? { return Err; }
        match next.value {
          case RowDescription(fields) => columns, rows := Names(fields), [];
          case DataRow(cells) => rows := rows + [Row(columns, cells)];
          case CommandComplete(text) => tag := Some(text);
          case ErrorResponse(message) =>
            FirstErrorFound(ms, i);
            RestOfReply(ws, i);
            var ok := DrainToReady(ws[i + 1..], rest);
            return Ok(ServerError(message));
          case ReadyForQuery(_) =>
            NoErrorFound(ms);
            NothingLeft(ws[i + 1..], rest);
            assert ms[..i + 1] == ms;
            return Ok(Rows(columns, rows, tag));
          case _ =>
        }
        i := i + 1;
      }
    }
  }

  /** Well-formed messages of which exactly the last is a ReadyForQuery. */
  predicate ReplyOk(ws: seq<Wire>) {
    && ws != []
    && (forall i :: 0 <= i < |ws| ==> WireOk(ws[i]))
    && (forall i :: 0 <= i < |ws| ==> (View(ws[i]).ReadyForQuery? <==> i == |ws| - 1))
  }

  lemma RestOfReply(ws: seq<Wire>, i: nat)
    requires ReplyOk(ws) && i < |ws| && !View(ws[i]).ReadyForQuery?
    ensures ReplyOk(ws[i + 1..])
  {
    hide WireOk, View;
  }

  lemma NothingLeft(ws: seq<Wire>, rest: seq<byte>)
    requires ws == []
    ensures EncodeAll(ws) + rest == rest
  {
  }

  // ----- reference encoding of backend messages -----

  /** A column description: name, then table, attribute, type, size, modifier and format. */
  datatype WireField = WireField(name: Text, meta: seq<byte>)

  datatype Wire =
    | WReady(status: byte)
    | WDescription(fields: seq<WireField>)
    | WData(cells: Cells)
    | WComplete(tag: Text)
    | WError(parts: seq<(byte, Text)>)
    | WNotice(parts: seq<(byte, Text)>)
    | WEmpty
    | WCopy(data: seq<byte>)
    | WOther(kind: byte, body: seq<byte>)

  predicate FieldOk(f: WireField) {
    NulFree(f.name) && |f.meta| == 18
  }

  predicate PartOk(p: (byte, Text)) {
    p.0 != 0 && NulFree(p.1)
  }

  predicate WireOk(w: Wire) {
    && |Body(w)| + 4 < TWO31
    && match w
       case WDescription(fields) => |fields| < 0x8000 && forall i :: 0 <= i < |fields| ==> FieldOk(fields[i])
       case WData(cells) => |cells| < 0x8000
       case WComplete(tag) => NulFree(tag)
       case WError(parts) => forall i :: 0 <= i < |parts| ==> PartOk(parts[i])
       case WNotice(parts) => forall i :: 0 <= i < |parts| ==> PartOk(parts[i])
       case WOther(kind, _) => kind !in {90, 84, 68, 67, 69, 78, 73, 100}
       case _ => true
  }

  /** The tags of version 3 of the PostgreSQL protocol: Z, T, D, C, E, N, I and d. */
  function Tag(w: Wire): byte {
    match w
    case WReady(_) => 90
    case WDescription(_) => 84
    case WData(_) => 68
    case WComplete(_) => 67
    case WError(_) => 69
    case WNotice(_) => 78
    case WEmpty => 73
    case WCopy(_) => 100
    case WOther(kind, _) => kind
  }

  function FieldBytes(fields: seq<WireField>): seq<byte> {
    if fields == [] then [] else fields[0].name + [0] + fields[0].meta + FieldBytes(fields[1..])
  }

  function CellBytes(cells: Cells): seq<byte> {
    if cells == [] then []
    else (match cells[0]
          case None => [255, 255, 255, 255]
          case Some(v) => ToBE(|v|, 4) + v) + CellBytes(cells[1..])
  }

  function PartBytes(parts: seq<(byte, Text)>): seq<byte> {
    if parts == [] then [0] else [parts[0].0] + parts[0].1 + [0] + PartBytes(parts[1..])
  }

  function Body(w: Wire): seq<byte> {
    match w
    case WReady(status) => [status]
    case WDescription(fields) => ToBE(|fields|, 2) + FieldBytes(fields)
    case WData(cells) => ToBE(|cells|, 2) + CellBytes(cells)
    case WComplete(tag) => tag + [0]
    case WError(parts) => PartBytes(parts)
    case WNotice(parts) => PartBytes(parts)
    case WEmpty => []
    case WCopy(data) => data
    case WOther(_, body) => body
  }

  function Encode(w: Wire): seq<byte> {
    [Tag(w)] + ToBE(4 + |Body(w)|, 4) + Body(w)
  }

  function EncodeAll(ws: seq<Wire>): seq<byte> {
    if ws == [] then [] else Encode(ws[0]) + EncodeAll(ws[1..])
  }

  // ----- what the client makes of them -----

  function ViewFields(fields: seq<WireField>): seq<Field>
    requires forall i :: 0 <= i < |fields| ==> FieldOk(fields[i])
  {
    if fields == [] then []
    else
      assert FieldOk(fields[0]);
      [Field(fields[0].name, BigI32(fields[0].meta[6..10]))] + ViewFields(fields[1..])
  }

  function LastMessage(parts: seq<(byte, Text)>, found: Text): Text {
    if parts == [] then found else LastMessage(parts[1..], if parts[0].0 == 77 then parts[0].1 else found)
  }

  function View(w: Wire): Message
    requires WireOk(w)
  {
    match w
    case WReady(status) => ReadyForQuery(status)
    case WDescription(fields) => RowDescription(ViewFields(fields))
    case WData(cells) => DataRow(cells)
    case WComplete(tag) => CommandComplete(tag)
    case WError(parts) => ErrorResponse(LastMessage(parts, UNKNOWN_ERROR))
    case WNotice(parts) => NoticeResponse(LastMessage(parts, UNKNOWN_ERROR))
    case WEmpty => EmptyQueryResponse
    case WCopy(data) => CopyData(data)
    case WOther(kind, _) => Other(kind)
  }

  function Views(ws: seq<Wire>): (ms: seq<Message>)
    requires forall i :: 0 <= i < |ws| ==> WireOk(ws[i])
    ensures |ms| == |ws|
  {
    if ws == [] then [] else [View(ws[0])] + Views(ws[1..])
  }

  lemma {:induction false} ViewsAt(ws: seq<Wire>)
    requires forall i :: 0 <= i < |ws| ==> WireOk(ws[i])
    ensures forall i :: 0 <= i < |ws| ==> Views(ws)[i] == View(ws[i])
  {
    if ws != [] { ViewsAt(ws[1..]); }
  }

  // ----- the meaning of a reply -----

  function Names(fields: seq<Field>): seq<Text> {
    seq(|fields|, i requires 0 <= i < |fields| => fields[i].name)
  }

  /** State of the loop after the messages `ms`. */
  function ColumnsAfter(ms: seq<Message>): seq<Text> {
    if ms == [] then []
    else match ms[|ms| - 1]
      case RowDescription(fields) => Names(fields)
      case _ => ColumnsAfter(ms[..|ms| - 1])
  }

  function RowsAfter(ms: seq<Message>): seq<Row> {
    if ms == [] then []
    else match ms[|ms| - 1]
      case RowDescription(_) => []
      case DataRow(cells) => RowsAfter(ms[..|ms| - 1]) + [Row(ColumnsAfter(ms[..|ms| - 1]), cells)]
      case _ => RowsAfter(ms[..|ms| - 1])
  }

  function TagAfter(ms: seq<Message>): Option<Text> {
    if ms == [] then None
    else match ms[|ms| - 1]
      case CommandComplete(tag) => Some(tag)
      case _ => TagAfter(ms[..|ms| - 1])
  }

  function FirstError(ms: seq<Message>): Option<Text> {
    if ms == [] then None
    else if ms[0].ErrorResponse? then Some(ms[0].message)
    else FirstError(ms[1..])
  }

  /** A reply is the first error it contains, or else its last row set. */
  function Outcome(ms: seq<Message>): QueryResult {
    match FirstError(ms)
    case Some(message) => ServerError(message)
    case None => Rows(ColumnsAfter(ms), RowsAfter(ms), TagAfter(ms))
  }

  lemma Snoc(ms: seq<Message>, i: nat)
    requires i < |ms|
    ensures ms[..i + 1] == ms[..i] + [ms[i]] && ms[..i + 1][..i] == ms[..i] && ms[..i + 1][i] == ms[i]
  {
  }

  lemma {:induction false} FirstErrorFound(ms: seq<Message>, i: nat)
    requires i < |ms| && ms[i].ErrorResponse? && forall k :: 0 <= k < i ==> !ms[k].ErrorResponse?
    ensures FirstError(ms) == Some(ms[i].message)
  {
    if i > 0 { FirstErrorFound(ms[1..], i - 1); }
  }

  lemma {:induction false} NoErrorFound(ms: seq<Message>)
    requires forall k :: 0 <= k < |ms| ==> !ms[k].ErrorResponse?
    ensures FirstError(ms) == None
  {
    if ms != [] { NoErrorFound(ms[1..]); }
  }

  function CellsIn(ms: seq<Message>): seq<Cells> {
    if ms == [] then []
    else CellsIn(ms[..|ms| - 1]) + (if ms[|ms| - 1].DataRow? then [ms[|ms| - 1].cells] else [])
  }

  /** The rows returned are the data rows after the last row description, under its column names. */
  lemma {:induction false} RowsFollowLastDescription(ms: seq<Message>, d: nat)
    requires d < |ms| && ms[d].RowDescription? && forall k :: d < k < |ms| ==> !ms[k].RowDescription?
    ensures ColumnsAfter(ms) == Names(ms[d].fields)
    ensures var rows, cells := RowsAfter(ms), CellsIn(ms[d + 1..]);
      |rows| == |cells| && forall k :: 0 <= k < |rows| ==> rows[k] == Row(Names(ms[d].fields), cells[k])
  {
    var n := |ms| - 1;
    if d < n {
      RowsFollowLastDescription(ms[..n], d);
      assert ms[d + 1..][..n - d - 1] == ms[..n][d + 1..];
    } else {
      assert ms[d + 1..] == [];
    }
  }

  // ----- round trip -----

  lemma CStrFound(name: Text, rest: seq<byte>)
    requires NulFree(name)
    ensures CStr(name + [0] + rest) == name && AfterCStr(name + [0] + rest) == rest
  {
    NulFound(name, rest);
  }

  lemma {:induction false} FieldsRoundTrip(fields: seq<WireField>)
    requires forall i :: 0 <= i < |fields| ==> FieldOk(fields[i])
    ensures Fields(|fields|, FieldBytes(fields)) == Ok(ViewFields(fields))
  {
    hide NulFree, CStr, AfterCStr, BigI32;
    if fields != [] {
      FieldsRoundTrip(fields[1..]);
      var f, more := fields[0], FieldBytes(fields[1..]);
      assert FieldOk(f);
      CStrFound(f.name, f.meta + more);
      assert FieldBytes(fields) == f.name + [0] + (f.meta + more);
      assert (f.meta + more)[18..] == more && (f.meta + more)[6..10] == f.meta[6..10];
    }
  }

  lemma NullLength()
    ensures BigI32([255, 255, 255, 255]) == -1
  {
    var a: seq<byte> := [255];
    var b: seq<byte> := [255, 255];
    var c: seq<byte> := [255, 255, 255];
    var d: seq<byte> := [255, 255, 255, 255];
    assert b[..1] == a && c[..2] == b && d[..3] == c;
    assert FromBE(a) == 255 && FromBE(b) == 0xFFFF && FromBE(c) == 0xFF_FFFF;
  }

  lemma {:induction false} CellsRoundTrip(cells: Cells)
    requires |CellBytes(cells)| < TWO31
    ensures CellsOf(|cells|, CellBytes(cells)) == Ok(cells)
  {
    hide BigI32, ToBE;
    if cells != [] {
      var more := CellBytes(cells[1..]);
      CellsRoundTrip(cells[1..]);
      var s := CellBytes(cells);
      assert [cells[0]] + cells[1..] == cells;
      match cells[0]
      case None =>
        var mark: seq<byte> := [255, 255, 255, 255];
        NullLength();
        assert s == mark + more;
        assert s[..4] == mark && s[4..] == more;
      case Some(v) =>
        BigI32OfLength(|v|);
        assert s == ToBE(|v|, 4) + (v + more);
        assert s[..4] == ToBE(|v|, 4) && s[4..] == v + more;
        assert (v + more)[..|v|] == v && (v + more)[|v|..] == more;
    }
  }

  lemma PartRead(p: (byte, Text), more: seq<byte>, found: Text)
    requires PartOk(p)
    ensures MessageField([p.0] + p.1 + [0] + more, found) == MessageField(more, if p.0 == 77 then p.1 else found)
  {
    hide NulFree, CStr, AfterCStr;
    CStrFound(p.1, more);
    assert ([p.0] + p.1 + [0] + more)[1..] == p.1 + [0] + more;
  }

  lemma {:induction false} PartsRoundTrip(parts: seq<(byte, Text)>, found: Text)
    requires forall i :: 0 <= i < |parts| ==> PartOk(parts[i])
    ensures MessageField(PartBytes(parts), found) == LastMessage(parts, found)
  {
    if parts != [] {
      hide MessageField, PartOk;
      PartRead(parts[0], PartBytes(parts[1..]), found);
      PartsRoundTrip(parts[1..], if parts[0].0 == 77 then parts[0].1 else found);
    }
  }

  lemma CountRoundTrip(n: nat, rest: seq<byte>)
    requires n < 0x8000
    ensures var s := ToBE(n, 2) + rest; I16(s[..2]) == n && s[2..] == rest
  {
    Pow256Values();
    FromBEToBE(n, 2);
    assert (ToBE(n, 2) + rest)[..2] == ToBE(n, 2);
  }

  lemma BodyRoundTrip(w: Wire)
    requires WireOk(w)
    ensures DecodeBody(Tag(w), Body(w)) == Ok(View(w))
  {
    match w
    case WDescription(fields) =>
      FieldsRoundTrip(fields);
      CountRoundTrip(|fields|, FieldBytes(fields));
    case WData(cells) =>
      CellsRoundTrip(cells);
      CountRoundTrip(|cells|, CellBytes(cells));
    case WComplete(tag) =>
      CStrFound(tag, []);
      assert tag + [0] + [] == tag + [0];
    case WError(parts) => PartsRoundTrip(parts, UNKNOWN_ERROR);
    case WNotice(parts) => PartsRoundTrip(parts, UNKNOWN_ERROR);
    case _ =>
  }

  /** A well-formed message is read back and exactly its bytes are consumed. */
  lemma MessageRoundTrip(w: Wire, rest: seq<byte>)
    requires WireOk(w)
    ensures ParseOne(Encode(w) + rest) == Ok((View(w), rest))
  {
    hide WireOk, Body, View, DecodeBody, BigI32, ToBE, Tag;
    BodyRoundTrip(w);
    BodyIsShort(w);
    var n, body := 4 + |Body(w)|, Body(w);
    BigI32OfLength(n);
    var s := Encode(w) + rest;
    assert s == [Tag(w)] + (ToBE(n, 4) + (body + rest));
    assert s[1..] == ToBE(n, 4) + (body + rest);
    assert s[1..5] == ToBE(n, 4);
    assert s[5..] == body + rest;
    assert s[5..1 + n] == body && s[1 + n..] == rest;
  }

  lemma BodyIsShort(w: Wire)
    requires WireOk(w)
    ensures |Body(w)| + 4 < TWO31
  {
    hide Body;
  }

  lemma HeadParses(ws: seq<Wire>, rest: seq<byte>)
    requires ws != [] && WireOk(ws[0])
    ensures ParseOne(EncodeAll(ws) + rest) == Ok((View(ws[0]), EncodeAll(ws[1..]) + rest))
  {
    hide ParseOne, View, Encode, WireOk;
    MessageRoundTrip(ws[0], EncodeAll(ws[1..]) + rest);
    assert EncodeAll(ws) + rest == Encode(ws[0]) + (EncodeAll(ws[1..]) + rest);
  }

  /** `n` messages in a row off the front of a stream. */
  function ParseMany(n: nat, s: seq<byte>): Result<(seq<Message>, seq<byte>)> {
    if n == 0 then Ok(([], s))
    else match ParseOne(s)
      case Err => Err
      case Ok((m, rest)) =>
        match ParseMany(n - 1, rest)
        case Err => Err
        case Ok((ms, rest')) => Ok(([m] + ms, rest'))
  }

  /** A stream of well-formed messages is read back in order, up to exactly where it ends. */
  lemma {:induction false} StreamRoundTrip(ws: seq<Wire>, rest: seq<byte>)
    requires forall i :: 0 <= i < |ws| ==> WireOk(ws[i])
    ensures ParseMany(|ws|, EncodeAll(ws) + rest) == Ok((Views(ws), rest))
  {
    hide WireOk, View, ParseOne, Encode;
    if ws == [] {
      assert EncodeAll(ws) + rest == rest;
    } else {
      HeadParses(ws, rest);
      StreamRoundTrip(ws[1..], rest);
    }
  }

  // ----- the rest of a result -----

  /** The command tag returned is the last one sent, and none when none was. */
  lemma {:induction false} TagIsLast(ms: seq<Message>, i: nat)
    requires i <= |ms| && (i < |ms| ==> ms[i].CommandComplete?)
    requires forall k :: i < k < |ms| || (i == |ms| && 0 <= k < |ms|) ==> !ms[k].CommandComplete?
    ensures TagAfter(ms) == if i < |ms| then Some(ms[i].tag) else None
  {
    if ms != [] && !ms[|ms| - 1].CommandComplete? {
      var shorter := ms[..|ms| - 1];
      TagIsLast(shorter, if i == |ms| then |shorter| else i);
    }
  }

  /** Without a description, the data rows are returned under no column names. */
  lemma {:induction false} RowsWithoutDescription(ms: seq<Message>)
    requires forall k :: 0 <= k < |ms| ==> !ms[k].RowDescription?
    ensures ColumnsAfter(ms) == []
    ensures var rows, cells := RowsAfter(ms), CellsIn(ms);
      |rows| == |cells| && forall k :: 0 <= k < |rows| ==> rows[k] == Row([], cells[k])
  {
    if ms != [] { RowsWithoutDescription(ms[..|ms| - 1]); }
  }

  /** An error without a message field is reported by the fixed text. */
  lemma UnnamedError(parts: seq<(byte, Text)>, text: Text)
    requires forall i :: 0 <= i < |parts| ==> PartOk(parts[i]) && parts[i].0 != 77
    ensures MessageField(PartBytes(parts), text) == text
  {
    hide MessageField, PartBytes;
    PartsRoundTrip(parts, text);
    NoMessage(parts, text);
  }

  /** The fixed text is "unknown server error". */
  lemma UnknownErrorText(i: nat)
    requires i < 20
    ensures |UNKNOWN_ERROR| == |"unknown server error"| == 20
    ensures UNKNOWN_ERROR[i] == "unknown server error"[i] as int
  {
  }

  lemma {:induction false} NoMessage(parts: seq<(byte, Text)>, found: Text)
    requires forall i :: 0 <= i < |parts| ==> parts[i].0 != 77
    ensures LastMessage(parts, found) == found
  {
    if parts != [] { NoMessage(parts[1..], found); }
  }
}
