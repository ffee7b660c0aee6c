/**
 SQL Server result sets: TYPE_INFO, row cells (fixed, length-prefixed, PLP and legacy text) and the token
 loop of `TdsConn::parse_result_set`. Turning a cell's raw bytes into text is a parameter.
 */
module Tds {
  import opened Bytes
  import opened Wrappers

  datatype LenKind = Fixed(width: nat) | ByteLen | ByteLenNoInfo | UShortLen | LongLen

  datatype ColumnMeta = ColumnMeta(tdsType: byte, lenKind: LenKind, scale: byte, isUnicode: bool, isPlp: bool)

  type Convert = (ColumnMeta, seq<byte>) -> Result<seq<byte>>

  type Cell = Option<seq<byte>>

  type Row = seq<Cell>

  /** What follows the type byte in a column's TYPE_INFO. */
  datatype Shape =
    | FixedShape(width: nat)
    | ByteLenShape
    | DecimalShape
    | DateShape
    | TimeShape
    | CharShape
    | BinaryShape
    | LongShape

  // ----- decoding: specification -----

  /** A `k`-byte little-endian number and the bytes after it. */
  function Number(k: nat, p: seq<byte>): (r: Result<(nat, seq<byte>)>)
    ensures r.Ok? ==> |r.value.1| == |p| - k
  {
    if |p| < k then Err else Ok((FromLE(p[..k]), p[k..]))
  }

  /** The types the connector accepts. */
  function ShapeOfCode(t: byte): Option<Shape> {
    if t == 0x1F then Some(FixedShape(0))
    else if t == 0x30 || t == 0x32 then Some(FixedShape(1))
    else if t == 0x34 then Some(FixedShape(2))
    else if t == 0x38 || t == 0x3A || t == 0x3B || t == 0x7A then Some(FixedShape(4))
    else if t == 0x3C || t == 0x3D || t == 0x3E || t == 0x7F then Some(FixedShape(8))
    else if t == 0x24 || t == 0x26 || t == 0x68 || t == 0x6D || t == 0x6E || t == 0x6F then Some(ByteLenShape)
    else if t == 0x37 || t == 0x3F || t == 0x6A || t == 0x6C then Some(DecimalShape)
    else if t == 0x28 then Some(DateShape)
    else if t == 0x29 || t == 0x2A || t == 0x2B then Some(TimeShape)
    else if t == 0xA7 || t == 0xAF || t == 0xE7 || t == 0xEF then Some(CharShape)
    else if t == 0xA5 || t == 0xAD then Some(BinaryShape)
    else if t == 0x23 || t == 0x63 || t == 0x22 then Some(LongShape)
    else None
  }

  /** Skips `count` table-name parts, each a two-byte number of UTF-16 units and the units. */
  function SkipParts(count: nat, p: seq<byte>): (r: Result<seq<byte>>)
    ensures r.Ok? ==> |r.value| <= |p|
  {
    if count == 0 then Ok(p)
    else match Number(2, p)
      case Err => Err
      case Ok((units, q)) => if |q| < units * 2 then Err else SkipParts(count - 1, q[units * 2..])
  }

  function ParseShape(t: byte, shape: Shape, p: seq<byte>): (r: Result<(ColumnMeta, seq<byte>)>)
    ensures r.Ok? ==> |r.value.1| <= |p|
  {
    match shape
    case FixedShape(n) => Ok((ColumnMeta(t, Fixed(n), 0, false, false), p))
    case ByteLenShape => if p == [] then Err else Ok((ColumnMeta(t, ByteLen, 0, false, false), p[1..]))
    case DecimalShape => if |p| < 3 then Err else Ok((ColumnMeta(t, ByteLen, p[2], false, false), p[3..]))
    case DateShape => Ok((ColumnMeta(t, ByteLenNoInfo, 0, false, false), p))
    case TimeShape => if p == [] then Err else Ok((ColumnMeta(t, ByteLenNoInfo, p[0], false, false), p[1..]))
    case CharShape =>
      (match Number(2, p)
       case Err => Err
       case Ok((maxLen, q)) =>
         if |q| < 5 then Err
         else Ok((ColumnMeta(t, UShortLen, 0, t == 0xE7 || t == 0xEF, maxLen == 0xFFFF), q[5..])))
    case BinaryShape =>
      (match Number(2, p)
       case Err => Err
       case Ok((maxLen, q)) => Ok((ColumnMeta(t, UShortLen, 0, false, maxLen == 0xFFFF), q)))
    case LongShape =>
      var skip := if t != 0x22 then 9 else 4; // maximum length, and a collation unless IMAGE
      if |p| < skip + 1 then Err
      else match SkipParts(p[skip], p[skip + 1..])
        case Err => Err
        case Ok(rest) => Ok((ColumnMeta(t, LongLen, 0, t == 0x63, false), rest))
  }

  function ParseTypeInfo(p: seq<byte>): (r: Result<(ColumnMeta, seq<byte>)>)
    ensures r.Ok? ==> |r.value.1| < |p|
  {
    if p == [] then Err
    else match ShapeOfCode(p[0])
      case None => Err
      case Some(shape) => ParseShape(p[0], shape, p[1..])
  }

  /** A cell whose raw bytes are the next `n`. */
  function SizedCell(conv: Convert, meta: ColumnMeta, n: nat, p: seq<byte>): (r: Result<(Cell, seq<byte>)>)
    ensures r.Ok? ==> |r.value.1| <= |p|
  {
    if |p| < n then Err
    else match conv(meta, p[..n])
      case Err => Err
      case Ok(text) => Ok((Some(text), p[n..]))
  }

  /** PLP chunks up to the empty one that ends them, joined. */
  function PlpChunks(p: seq<byte>): (r: Result<(seq<byte>, seq<byte>)>)
    ensures r.Ok? ==> |r.value.1| <= |p|
    decreases |p|
  {
    match Number(4, p)
    case Err => Err
    case Ok((n, q)) =>
      if n == 0 then Ok(([], q))
      else if |q| < n then Err
      else match PlpChunks(q[n..])
        case Err => Err
        case Ok((more, rest)) => Ok((q[..n] + more, rest))
  }

  function PlpCell(conv: Convert, meta: ColumnMeta, p: seq<byte>): (r: Result<(Cell, seq<byte>)>)
    ensures r.Ok? ==> |r.value.1| <= |p|
  {
    match Number(8, p)
    case Err => Err
    case Ok((total, q)) =>
      if total == TWO64 - 1 then Ok((None, q))
      else match PlpChunks(q)
        case Err => Err
        case Ok((data, rest)) =>
          match conv(meta, data)
          case Err => Err
          case Ok(text) => Ok((Some(text), rest))
  }

  function LongCell(conv: Convert, meta: ColumnMeta, p: seq<byte>): (r: Result<(Cell, seq<byte>)>)
    ensures r.Ok? ==> |r.value.1| <= |p|
  {
    match Number(1, p)
    case Err => Err
    case Ok((ptrLen, q)) =>
      if ptrLen == 0 then Ok((None, q))
      else if |q| < ptrLen + 8 then Err
      else match Number(4, q[ptrLen + 8..])
        case Err => Err
        case Ok((n, data)) => SizedCell(conv, meta, n, data)
  }

  /** A cell behind a `k`-byte length, one value of which means NULL. */
  function PrefixedCell(conv: Convert, meta: ColumnMeta, k: nat, isNull: nat, p: seq<byte>)
    : (r: Result<(Cell, seq<byte>)>)
    ensures r.Ok? ==> |r.value.1| <= |p|
  {
    match Number(k, p)
    case Err => Err
    case Ok((n, q)) => if n == isNull then Ok((None, q)) else SizedCell(conv, meta, n, q)
  }

  function CellAt(conv: Convert, meta: ColumnMeta, p: seq<byte>): (r: Result<(Cell, seq<byte>)>)
    ensures r.Ok? ==> |r.value.1| <= |p|
  {
    match meta.lenKind
    case Fixed(n) => if n == 0 then Ok((None, p)) else SizedCell(conv, meta, n, p)
    case ByteLen => PrefixedCell(conv, meta, 1, 0, p)
    case ByteLenNoInfo => PrefixedCell(conv, meta, 1, 0, p)
    case UShortLen => if meta.isPlp then PlpCell(conv, meta, p) else PrefixedCell(conv, meta, 2, 0xFFFF, p)
    case LongLen => LongCell(conv, meta, p)
  }

  /** A failed or a finished list behind what was already read. */
  function Behind<T>(items: seq<T>, r: Result<(seq<T>, seq<byte>)>): Result<(seq<T>, seq<byte>)> {
    match r
    case Err => Err
    case Ok((more, rest)) => Ok((items + more, rest))
  }

  function RowAt(conv: Convert, columns: seq<ColumnMeta>, p: seq<byte>): (r: Result<(Row, seq<byte>)>)
    ensures r.Ok? ==> |r.value.1| <= |p|
  {
    if columns == [] then Ok(([], p))
    else match CellAt(conv, columns[0], p)
      case Err => Err
      case Ok((cell, rest)) => Behind([cell], RowAt(conv, columns[1..], rest))
  }

  /** One COLMETADATA column: user type and flags, TYPE_INFO, name. */
  function ColumnAt(p: seq<byte>): (r: Result<(ColumnMeta, seq<byte>)>)
    ensures r.Ok? ==> |r.value.1| < |p|
  {
    if |p| < 6 then Err
    else match ParseTypeInfo(p[6..])
      case Err => Err
      case Ok((meta, rest)) =>
        match Number(1, rest)
        case Err => Err
        case Ok((units, q)) => if |q| < units * 2 then Err else Ok((meta, q[units * 2..]))
  }

  function ColumnsAt(count: nat, p: seq<byte>): (r: Result<(seq<ColumnMeta>, seq<byte>)>)
    ensures r.Ok? ==> |r.value.1| <= |p|
  {
    if count == 0 then Ok(([], p))
    else match ColumnAt(p)
      case Err => Err
      case Ok((meta, rest)) => Behind([meta], ColumnsAt(count - 1, rest))
  }

  /** What one token does: stop, go on with these columns and these rows added, or fail. */
  datatype Outcome = Stop | Go(columns: seq<ColumnMeta>, rows: seq<Row>, rest: seq<byte>) | Fail

  function Skip(columns: seq<ColumnMeta>, k: nat, p: seq<byte>): (o: Outcome)
    ensures o.Go? ==> |o.rest| <= |p|
  {
    match Number(k, p)
    case Err => Stop
    case Ok((n, q)) => if |q| < n then Stop else Go(columns, [], q[n..])
  }

  function Metadata(p: seq<byte>): (o: Outcome)
    ensures o.Go? ==> |o.rest| <= |p|
  {
    match Number(2, p)
    case Err => Stop
    case Ok((count, q)) =>
      if count == 0xFFFF then Go([], [], q)
      else match ColumnsAt(count, q)
        case Err => Fail
        case Ok((columns, rest)) => Go(columns, [], rest)
  }

  function RowToken(conv: Convert, columns: seq<ColumnMeta>, p: seq<byte>): (o: Outcome)
    ensures o.Go? ==> |o.rest| <= |p|
  {
    match RowAt(conv, columns, p)
    case Err => Fail
    case Ok((row, rest)) => Go(columns, [row], rest)
  }

  function TokenAt(conv: Convert, columns: seq<ColumnMeta>, token: byte, p: seq<byte>): (o: Outcome)
    ensures o.Go? ==> |o.rest| <= |p|
  {
    if token == 0x81 then Metadata(p)
    else if token == 0xD1 || token == 0xC1 then RowToken(conv, columns, p)
    else if token == 0xD2 then Fail
    else if token == 0xC3 then Skip(columns, 2, p)
    else if token == 0xC2 then Skip(columns, 1, p)
    else Stop
  }

  function ResultSet(conv: Convert, columns: seq<ColumnMeta>, p: seq<byte>): Result<seq<Row>>
    decreases |p|
  {
    if p == [] then Ok([])
    else match TokenAt(conv, columns, p[0], p[1..])
      case Stop => Ok([])
      case Fail => Err
      case Go(columns', rows, rest) => Prepend(rows, ResultSet(conv, columns', rest))
  }

  // ----- decoding: the loops -----

  method SkipTableName(count: byte, p: seq<byte>) returns (r: Result<seq<byte>>)
    ensures r == SkipParts(count, p)
  {
    var q := p;
    for i := 0 to count
      invariant SkipParts(count, p) == SkipParts(count - i, q)
    {
      if |q| < 2 { return Err; }
      var units := FromLE(q[..2]);
      q := q[2..];
      if |q| < units * 2 { return Err; }
      q := q[units * 2..];
    }
    return Ok(q);
  }

  lemma BehindSnoc<T>(items: seq<T>, more: seq<T>, r: Result<(seq<T>, seq<byte>)>, rest: seq<byte>)
    ensures Behind(items, Behind(more, r)) == Behind(items + more, r)
    ensures Behind([], r) == r && Behind(items, Ok(([], rest))) == Ok((items, rest))
  {
    assert r.Ok? ==> items + (more + r.value.0) == (items + more) + r.value.0;
    assert r.Ok? ==> [] + r.value.0 == r.value.0;
    assert items + [] == items;
  }

  method ReadPlpChunks(p: seq<byte>) returns (r: Result<(seq<byte>, seq<byte>)>)
    ensures r == PlpChunks(p)
  {
    hide FromLE;
    var q, data := p, [];
    BehindSnoc([], [], PlpChunks(p), p);
    while true
      invariant PlpChunks(p) == Behind(data, PlpChunks(q))
      decreases |q|
    {
      if |q| < 4 { return Err; }
      var n := FromLE(q[..4]);
      var body := q[4..];
      if n == 0 {
        BehindSnoc(data, [], Ok(([], body)), body);
        return Ok((data, body));
      }
      if |body| < n { return Err; }
      assert PlpChunks(q) == Behind(body[..n], PlpChunks(body[n..]));
      BehindSnoc(data, body[..n], PlpChunks(body[n..]), body);
      data, q := data + body[..n], body[n..];
    }
  }

  method ReadTypeInfo(p: seq<byte>) returns (r: Result<(ColumnMeta, seq<byte>)>)
    ensures r == ParseTypeInfo(p)
  {
    hide ShapeOfCode, SkipParts, FromLE;
    if p == [] { return Err; }
    var t, q := p[0], p[1..];
    var shape := ShapeOfCode(t);
    if shape.None? { return Err; }
    match shape.value {
      case FixedShape(n) => return Ok((ColumnMeta(t, Fixed(n), 0, false, false), q));
      case ByteLenShape =>
        if q == [] { return Err; }
        return Ok((ColumnMeta(t, ByteLen, 0, false, false), q[1..]));
      case DecimalShape =>
        if |q| < 3 { return Err; }
        return Ok((ColumnMeta(t, ByteLen, q[2], false, false), q[3..]));
      case DateShape => return Ok((ColumnMeta(t, ByteLenNoInfo, 0, false, false), q));
      case TimeShape =>
        if q == [] { return Err; }
        return Ok((ColumnMeta(t, ByteLenNoInfo, q[0], false, false), q[1..]));
      case CharShape =>
        if |q| < 2 { return Err; }
        var maxLen := FromLE(q[..2]);
        q := q[2..];
        if |q| < 5 { return Err; }
        return Ok((ColumnMeta(t, UShortLen, 0, t == 0xE7 || t == 0xEF, maxLen == 0xFFFF), q[5..]));
      case BinaryShape =>
        if |q| < 2 { return Err; }
        return Ok((ColumnMeta(t, UShortLen, 0, false, FromLE(q[..2]) == 0xFFFF), q[2..]));
      case LongShape =>
        var skip := if t != 0x22 then 9 else 4;
        if |q| < skip + 1 { return Err; }
        var rest := SkipTableName(q[skip], q[skip + 1..]);
        if rest.Err? { return Err; }
        return Ok((ColumnMeta(t, LongLen, 0, t == 0x63, false), rest.value));
    }
  }

  /** The raw bytes of a cell as text. */
  method ReadSized(conv: Convert, meta: ColumnMeta, n: nat, p: seq<byte>) returns (r: Result<(Cell, seq<byte>)>)
    ensures r == SizedCell(conv, meta, n, p)
  {
    if |p| < n { return Err; }
    var text := conv(meta, p[..n]);
    if text.Err? { return Err; }
    return Ok((Some(text.value), p[n..]));
  }

  method ReadPlpCell(conv: Convert, meta: ColumnMeta, p: seq<byte>) returns (r: Result<(Cell, seq<byte>)>)
    ensures r == PlpCell(conv, meta, p)
  {
    hide FromLE, PlpChunks;
    if |p| < 8 { return Err; }
    if FromLE(p[..8]) == TWO64 - 1 { return Ok((None, p[8..])); }
    var data := ReadPlpChunks(p[8..]);
    if data.Err? { return Err; }
    var text := conv(meta, data.value.0);
    if text.Err? { return Err; }
    return Ok((Some(text.value), data.value.1));
  }

  method ReadLongCell(conv: Convert, meta: ColumnMeta, p: seq<byte>) returns (r: Result<(Cell, seq<byte>)>)
    ensures r == LongCell(conv, meta, p)
  {
    hide FromLE, SizedCell;
    if p == [] { return Err; }
    var ptrLen := FromLE(p[..1]);
    var q := p[1..];
    if ptrLen == 0 { return Ok((None, q)); }
    if |q| < ptrLen + 8 + 4 { return Err; }
    q := q[ptrLen + 8..];
    var n := FromLE(q[..4]);
    r := ReadSized(conv, meta, n, q[4..]);
  }

  method ReadCell(conv: Convert, meta: ColumnMeta, p: seq<byte>) returns (r: Result<(Cell, seq<byte>)>)
    ensures r == CellAt(conv, meta, p)
  {
    hide FromLE, PlpCell, SizedCell, LongCell;
    match meta.lenKind {
      case Fixed(n) =>
        if n == 0 { return Ok((None, p)); }
        r := ReadSized(conv, meta, n, p);
      case LongLen =>
        r := ReadLongCell(conv, meta, p);
      case UShortLen =>
        if meta.isPlp {
          r := ReadPlpCell(conv, meta, p);
          return;
        }
        if |p| < 2 { return Err; }
        var n := FromLE(p[..2]);
        if n == 0xFFFF { return Ok((None, p[2..])); }
        r := ReadSized(conv, meta, n, p[2..]);
      case _ =>
        if p == [] { return Err; }
        var n := FromLE(p[..1]);
        if n == 0 { return Ok((None, p[1..])); }
        r := ReadSized(conv, meta, n, p[1..]);
    }
  }

  method ReadRow(conv: Convert, columns: seq<ColumnMeta>, p: seq<byte>) returns (r: Result<(Row, seq<byte>)>)
    ensures r == RowAt(conv, columns, p)
  {
    hide CellAt;
    var q, cells := p, [];
    BehindSnoc([], [], RowAt(conv, columns, p), p);
    assert columns[0..] == columns;
    for i := 0 to |columns|
      invariant RowAt(conv, columns, p) == Behind(cells, RowAt(conv, columns[i..], q))
    {
      assert columns[i..][1..] == columns[i + 1..];
      var cell := ReadCell(conv, columns[i], q);
      if cell.Err? { return Err; }
      BehindSnoc(cells, [cell.value.0], RowAt(conv, columns[i + 1..], cell.value.1), p);
      cells, q := cells + [cell.value.0], cell.value.1;
    }
    BehindSnoc(cells, [], Ok(([], q)), q);
    return Ok((cells, q));
  }

  method ReadColumn(p: seq<byte>) returns (r: Result<(ColumnMeta, seq<byte>)>)
    ensures r == ColumnAt(p)
  {
    hide ParseTypeInfo;
    if |p| < 6 { return Err; }
    var info := ReadTypeInfo(p[6..]);
    if info.Err? { return Err; }
    var name := Number(1, info.value.1);
    if name.Err? || |name.value.1| < name.value.0 * 2 { return Err; }
    return Ok((info.value.0, name.value.1[name.value.0 * 2..]));
  }

  method ReadColumns(count: nat, p: seq<byte>) returns (r: Result<(seq<ColumnMeta>, seq<byte>)>)
    ensures r == ColumnsAt(count, p)
  {
    hide ColumnAt;
    var q, columns := p, [];
    BehindSnoc([], [], ColumnsAt(count, p), p);
    for i := 0 to count
      invariant ColumnsAt(count, p) == Behind(columns, ColumnsAt(count - i, q))
    {
      var column := ReadColumn(q);
      if column.Err? { return Err; }
      BehindSnoc(columns, [column.value.0], ColumnsAt(count - i - 1, column.value.1), p);
      columns, q := columns + [column.value.0], column.value.1;
    }
    BehindSnoc(columns, [], Ok(([], q)), q);
    return Ok((columns, q));
  }

  method ReadToken(conv: Convert, columns: seq<ColumnMeta>, token: byte, p: seq<byte>) returns (o: Outcome)
    ensures o == TokenAt(conv, columns, token, p)
  {
    hide FromLE, ColumnsAt, RowAt;
    if token == 0x81 {
      if |p| < 2 { return Stop; }
      var count := FromLE(p[..2]);
      if count == 0xFFFF { return Go([], [], p[2..]); }
      var cols := ReadColumns(count, p[2..]);
      return if cols.Err? then Fail else Go(cols.value.0, [], cols.value.1);
    } else if token == 0xD1 || token == 0xC1 {
      var row := ReadRow(conv, columns, p);
      return if row.Err? then Fail else Go(columns, [row.value.0], row.value.1);
    } else if token == 0xD2 {
      return Fail;
    } else if token == 0xC3 || token == 0xC2 {
      var k := if token == 0xC3 then 2 else 1;
      if |p| < k { return Stop; }
      var n := FromLE(p[..k]);
      if |p| < k + n { return Stop; }
      return Go(columns, [], p[k + n..]);
    }
    return Stop;
  }

  method ParseResultSet(conv: Convert, body: seq<byte>) returns (r: Result<seq<Row>>)
    ensures r == ResultSet(conv, [], body)
  {
    hide TokenAt;
    var p, rows, columns := body, [], [];
    assert ResultSet(conv, [], body) == Prepend([], ResultSet(conv, [], body)) by {
      PrependJoin<Row>([], [], ResultSet(conv, [], body));
    }
    while p != []
      invariant ResultSet(conv, [], body) == Prepend(rows, ResultSet(conv, columns, p))
      decreases |p|
    {
      var outcome := ReadToken(conv, columns, p[0], p[1..]);
      match outcome {
        case Stop => break;
        case Fail => return Err;
        case Go(columns', rows', rest) =>
          PrependJoin(rows, rows', ResultSet(conv, columns', rest));
          rows, columns, p := rows + rows', columns', rest;
      }
    }
    PrependJoin(rows, [], Ok([]));
    return Ok(rows);
  }
}
