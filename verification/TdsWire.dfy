/**
 The TDS wire format of a result set, written as an encoder, and the proof that `Tds` reads it back exactly.
 */
module TdsWire {
  import opened Bytes
  import opened Wrappers
  import opened Tds

  /** The data types of TDS by name. */
  datatype TypeName =
    | NullType | Int1 | Bit | Int2 | Int4 | DateTime4 | Flt4 | Money4 | Money | DateTime | Flt8 | Int8
    | Guid | IntN | BitN | FltN | MoneyN | DateTimeN
    | Decimal | Numeric | DecimalN | NumericN
    | DateN | TimeN | DateTime2N | DateTimeOffsetN
    | BigVarChar | BigChar | NVarChar | NChar
    | BigVarBinary | BigBinary
    | Text | NText | Image

  function Code(name: TypeName): byte {
    match name
    case NullType => 0x1F
    case Int1 => 0x30
    case Bit => 0x32
    case Int2 => 0x34
    case Int4 => 0x38
    case DateTime4 => 0x3A
    case Flt4 => 0x3B
    case Money4 => 0x7A
    case Money => 0x3C
    case DateTime => 0x3D
    case Flt8 => 0x3E
    case Int8 => 0x7F
    case Guid => 0x24
    case IntN => 0x26
    case BitN => 0x68
    case FltN => 0x6D
    case MoneyN => 0x6E
    case DateTimeN => 0x6F
    case Decimal => 0x37
    case Numeric => 0x3F
    case DecimalN => 0x6A
    case NumericN => 0x6C
    case DateN => 0x28
    case TimeN => 0x29
    case DateTime2N => 0x2A
    case DateTimeOffsetN => 0x2B
    case BigVarChar => 0xA7
    case BigChar => 0xAF
    case NVarChar => 0xE7
    case NChar => 0xEF
    case BigVarBinary => 0xA5
    case BigBinary => 0xAD
    case Text => 0x23
    case NText => 0x63
    case Image => 0x22
  }

  function ShapeOf(name: TypeName): Shape {
    match name
    case NullType => FixedShape(0)
    case Int1 | Bit => FixedShape(1)
    case Int2 => FixedShape(2)
    case Int4 | DateTime4 | Flt4 | Money4 => FixedShape(4)
    case Money | DateTime | Flt8 | Int8 => FixedShape(8)
    case Guid | IntN | BitN | FltN | MoneyN | DateTimeN => ByteLenShape
    case Decimal | Numeric | DecimalN | NumericN => DecimalShape
    case DateN => DateShape
    case TimeN | DateTime2N | DateTimeOffsetN => TimeShape
    case BigVarChar | BigChar | NVarChar | NChar => CharShape
    case BigVarBinary | BigBinary => BinaryShape
    case Text | NText | Image => LongShape
  }

  datatype TypeInfo = TypeInfo(name: TypeName, maxLen: nat, precision: byte, scale: byte,
                               collation: seq<byte>, parts: seq<seq<byte>>)

  predicate ValidPart(part: seq<byte>) {
    |part| % 2 == 0 && |part| / 2 < 0x1_0000
  }

  predicate ValidTypeInfo(i: TypeInfo) {
    && |i.collation| == 5
    && |i.parts| < 256
    && (forall part :: part in i.parts ==> ValidPart(part))
    && match ShapeOf(i.name) {
         case CharShape => i.maxLen < 0x1_0000
         case BinaryShape => i.maxLen < 0x1_0000
         case LongShape => i.maxLen < TWO32
         case _ => i.maxLen < 256
       }
  }

  function EncodeParts(parts: seq<seq<byte>>): seq<byte> {
    if parts == [] then [] else ToLE(|parts[0]| / 2, 2) + (parts[0] + EncodeParts(parts[1..]))
  }

  function EncodeShape(i: TypeInfo): seq<byte>
    requires ValidTypeInfo(i)
  {
    match ShapeOf(i.name)
    case FixedShape(_) => []
    case ByteLenShape => [i.maxLen]
    case DecimalShape => [i.maxLen, i.precision, i.scale]
    case DateShape => []
    case TimeShape => [i.scale]
    case CharShape => ToLE(i.maxLen, 2) + i.collation
    case BinaryShape => ToLE(i.maxLen, 2)
    case LongShape =>
      ToLE(i.maxLen, 4) + (if i.name == Image then [] else i.collation) + [|i.parts|] + EncodeParts(i.parts)
  }

  function EncodeTypeInfo(i: TypeInfo): seq<byte>
    requires ValidTypeInfo(i)
  {
    [Code(i.name)] + EncodeShape(i)
  }

  /** What a column of this type must be read as. */
  function MetaOf(i: TypeInfo): ColumnMeta {
    match ShapeOf(i.name)
    case FixedShape(n) => ColumnMeta(Code(i.name), Fixed(n), 0, false, false)
    case ByteLenShape => ColumnMeta(Code(i.name), ByteLen, 0, false, false)
    case DecimalShape => ColumnMeta(Code(i.name), ByteLen, i.scale, false, false)
    case DateShape => ColumnMeta(Code(i.name), ByteLenNoInfo, 0, false, false)
    case TimeShape => ColumnMeta(Code(i.name), ByteLenNoInfo, i.scale, false, false)
    case CharShape => ColumnMeta(Code(i.name), UShortLen, 0, i.name.NVarChar? || i.name.NChar?, i.maxLen == 0xFFFF)
    case BinaryShape => ColumnMeta(Code(i.name), UShortLen, 0, false, i.maxLen == 0xFFFF)
    case LongShape => ColumnMeta(Code(i.name), LongLen, 0, i.name.NText?, false)
  }

  /** A cell as a server may send it. The total length of a chunked value is free: the reader never uses it. */
  datatype WireCell =
    | NullCell
    | Plain(raw: seq<byte>)
    | Chunked(total: nat, chunks: seq<seq<byte>>)
    | Pointed(pointer: seq<byte>, stamp: seq<byte>, raw: seq<byte>)

  function Join(chunks: seq<seq<byte>>): seq<byte> {
    if chunks == [] then [] else chunks[0] + Join(chunks[1..])
  }

  predicate ValidCell(meta: ColumnMeta, c: WireCell) {
    match meta.lenKind
    case Fixed(n) => if n == 0 then c.NullCell? else c.Plain? && |c.raw| == n
    case ByteLen => c.NullCell? || (c.Plain? && 0 < |c.raw| < 256)
    case ByteLenNoInfo => c.NullCell? || (c.Plain? && 0 < |c.raw| < 256)
    case UShortLen =>
      || c.NullCell?
      || (if meta.isPlp
          then c.Chunked? && c.total < TWO64 - 1 && (forall chunk :: chunk in c.chunks ==> 0 < |chunk| < TWO32)
          else c.Plain? && |c.raw| < 0xFFFF)
    case LongLen =>
      c.NullCell? || (c.Pointed? && 0 < |c.pointer| < 256 && |c.stamp| == 8 && |c.raw| < TWO32)
  }

  function EncodeChunks(chunks: seq<seq<byte>>): seq<byte> {
    if chunks == [] then ToLE(0, 4) else ToLE(|chunks[0]|, 4) + (chunks[0] + EncodeChunks(chunks[1..]))
  }

  function EncodeCell(meta: ColumnMeta, c: WireCell): seq<byte>
    requires ValidCell(meta, c)
  {
    match meta.lenKind
    case Fixed(n) => if n == 0 then [] else c.raw
    case ByteLen => if c.NullCell? then ToLE(0, 1) else ToLE(|c.raw|, 1) + c.raw
    case ByteLenNoInfo => if c.NullCell? then ToLE(0, 1) else ToLE(|c.raw|, 1) + c.raw
    case UShortLen =>
      if meta.isPlp then
        if c.NullCell? then ToLE(TWO64 - 1, 8) else ToLE(c.total, 8) + EncodeChunks(c.chunks)
      else
        if c.NullCell? then ToLE(0xFFFF, 2) else ToLE(|c.raw|, 2) + c.raw
    case LongLen =>
      if c.NullCell? then ToLE(0, 1)
      else ToLE(|c.pointer|, 1) + ((c.pointer + c.stamp) + (ToLE(|c.raw|, 4) + c.raw))
  }

  /** The value a cell stands for: no value for NULL, else its raw bytes as text. */
  function CellValue(conv: Convert, meta: ColumnMeta, c: WireCell): Result<Cell> {
    match c
    case NullCell => Ok(None)
    case Plain(raw) => AsText(conv, meta, raw)
    case Chunked(_, chunks) => AsText(conv, meta, Join(chunks))
    case Pointed(_, _, raw) => AsText(conv, meta, raw)
  }

  function AsText(conv: Convert, meta: ColumnMeta, raw: seq<byte>): Result<Cell> {
    match conv(meta, raw)
    case Err => Err
    case Ok(text) => Ok(Some(text))
  }

  // ----- type information -----

  lemma NumberRead(n: nat, k: nat, rest: seq<byte>)
    requires n < Pow256(k)
    ensures Number(k, ToLE(n, k) + rest) == Ok((n, rest))
  {
    hide ToLE, FromLE, Pow256;
    FromLEToLE(n, k);
    assert (ToLE(n, k) + rest)[..k] == ToLE(n, k);
    assert (ToLE(n, k) + rest)[k..] == rest;
  }

  lemma {:induction false} PartsRead(parts: seq<seq<byte>>, rest: seq<byte>)
    requires forall part :: part in parts ==> ValidPart(part)
    ensures SkipParts(|parts|, EncodeParts(parts) + rest) == Ok(rest)
  {
    hide Number, ToLE, Pow256;
    if parts == [] {
      assert EncodeParts(parts) + rest == rest;
    } else {
      var body := parts[0] + EncodeParts(parts[1..]);
      assert ValidPart(parts[0]);
      var units := |parts[0]| / 2;
      assert |parts[0]| == units * 2;
      Pow256Values();
      NumberRead(units, 2, body + rest);
      assert EncodeParts(parts) + rest == ToLE(units, 2) + (body + rest);
      assert (body + rest)[units * 2..] == EncodeParts(parts[1..]) + rest;
      PartsRead(parts[1..], rest);
    }
  }

  lemma CodesMatch(name: TypeName)
    ensures ShapeOfCode(Code(name)) == Some(ShapeOf(name))
    ensures name.NVarChar? || name.NChar? <==> Code(name) == 0xE7 || Code(name) == 0xEF
    ensures name.NText? <==> Code(name) == 0x63
    ensures name.Image? <==> Code(name) == 0x22
  {
  }

  lemma ShortShapesRead(i: TypeInfo, rest: seq<byte>)
    requires ValidTypeInfo(i) && (ShapeOf(i.name).CharShape? || ShapeOf(i.name).BinaryShape?)
    ensures ParseShape(Code(i.name), ShapeOf(i.name), EncodeShape(i) + rest) == Ok((MetaOf(i), rest))
  {
    CodesMatch(i.name);
    hide Number, Code, ShapeOfCode, ShapeOf, ToLE, Pow256;
    Pow256Values();
    if ShapeOf(i.name).CharShape? {
      NumberRead(i.maxLen, 2, i.collation + rest);
      assert (ToLE(i.maxLen, 2) + i.collation) + rest == ToLE(i.maxLen, 2) + (i.collation + rest);
      assert (i.collation + rest)[5..] == rest;
    } else {
      NumberRead(i.maxLen, 2, rest);
    }
  }

  lemma LongShapeRead(i: TypeInfo, rest: seq<byte>)
    requires ValidTypeInfo(i) && ShapeOf(i.name).LongShape?
    ensures ParseShape(Code(i.name), LongShape, EncodeShape(i) + rest) == Ok((MetaOf(i), rest))
  {
    CodesMatch(i.name);
    hide Code, ShapeOfCode, ShapeOf, ToLE, SkipParts, EncodeParts;
    var head := ToLE(i.maxLen, 4) + (if i.name == Image then [] else i.collation);
    PartsRead(i.parts, rest);
    var p := EncodeShape(i) + rest;
    assert p == head + ([|i.parts|] + (EncodeParts(i.parts) + rest));
    assert p[|head|] == |i.parts|;
    assert p[|head| + 1..] == EncodeParts(i.parts) + rest;
  }

  lemma ShapeRead(i: TypeInfo, rest: seq<byte>)
    requires ValidTypeInfo(i)
    ensures ParseShape(Code(i.name), ShapeOf(i.name), EncodeShape(i) + rest) == Ok((MetaOf(i), rest))
  {
    hide Code, ShapeOf, SkipParts, EncodeParts, Number, ToLE;
    match ShapeOf(i.name)
    case CharShape => ShortShapesRead(i, rest);
    case BinaryShape => ShortShapesRead(i, rest);
    case LongShape => LongShapeRead(i, rest);
    case _ =>
      assert (EncodeShape(i) + rest)[|EncodeShape(i)|..] == rest;
  }

  /** TYPE_INFO of every supported type is read exactly, and nothing after it is touched. */
  lemma TypeInfoRoundTrip(i: TypeInfo, rest: seq<byte>)
    requires ValidTypeInfo(i)
    ensures ParseTypeInfo(EncodeTypeInfo(i) + rest) == Ok((MetaOf(i), rest))
  {
    CodesMatch(i.name);
    ShapeRead(i, rest);
    hide Code, ShapeOf, ShapeOfCode, ParseShape, EncodeShape, MetaOf;
    assert (EncodeTypeInfo(i) + rest)[1..] == EncodeShape(i) + rest;
  }

  /** A type byte is accepted if and only if it is the code of a named type. */
  lemma AcceptedTypes(t: byte, p: seq<byte>)
    ensures ShapeOfCode(t).Some? <==> exists name :: Code(name) == t
    ensures (forall name :: Code(name) != t) ==> ParseTypeInfo([t] + p) == Err
  {
    if ShapeOfCode(t).Some? {
      var name := NameOfCode(t);
      assert Code(name) == t;
    } else {
      forall name
        ensures Code(name) != t
      {
        CodesMatch(name);
      }
    }
  }

  lemma NameOfCode(t: byte) returns (name: TypeName)
    requires ShapeOfCode(t).Some?
    ensures Code(name) == t
  {
    name := match t
      case 0x1F => NullType
      case 0x30 => Int1
      case 0x32 => Bit
      case 0x34 => Int2
      case 0x38 => Int4
      case 0x3A => DateTime4
      case 0x3B => Flt4
      case 0x7A => Money4
      case 0x3C => Money
      case 0x3D => DateTime
      case 0x3E => Flt8
      case 0x7F => Int8
      case 0x24 => Guid
      case 0x26 => IntN
      case 0x68 => BitN
      case 0x6D => FltN
      case 0x6E => MoneyN
      case 0x6F => DateTimeN
      case 0x37 => Decimal
      case 0x3F => Numeric
      case 0x6A => DecimalN
      case 0x6C => NumericN
      case 0x28 => DateN
      case 0x29 => TimeN
      case 0x2A => DateTime2N
      case 0x2B => DateTimeOffsetN
      case 0xA7 => BigVarChar
      case 0xAF => BigChar
      case 0xE7 => NVarChar
      case 0xEF => NChar
      case 0xA5 => BigVarBinary
      case 0xAD => BigBinary
      case 0x23 => Text
      case 0x63 => NText
      case 0x22 => Image
      case _ => Image;
  }

  // ----- cells -----

  /** Reading `cell` here gives the value `v` and leaves `rest`. */
  ghost predicate Reads(r: Result<(Cell, seq<byte>)>, v: Result<Cell>, rest: seq<byte>) {
    r == match v { case Err => Err case Ok(cell) => Ok((cell, rest)) }
  }

  lemma SizedRead(conv: Convert, meta: ColumnMeta, raw: seq<byte>, rest: seq<byte>)
    ensures Reads(SizedCell(conv, meta, |raw|, raw + rest), CellValue(conv, meta, Plain(raw)), rest)
  {
    assert (raw + rest)[..|raw|] == raw;
    assert (raw + rest)[|raw|..] == rest;
  }

  lemma PrefixedRead(conv: Convert, meta: ColumnMeta, k: nat, isNull: nat, raw: seq<byte>, rest: seq<byte>)
    requires |raw| < Pow256(k) && isNull < Pow256(k)
    ensures |raw| != isNull ==>
              Reads(PrefixedCell(conv, meta, k, isNull, (ToLE(|raw|, k) + raw) + rest),
                    CellValue(conv, meta, Plain(raw)), rest)
    ensures PrefixedCell(conv, meta, k, isNull, ToLE(isNull, k) + rest) == Ok((None, rest))
  {
    hide Number, SizedCell, ToLE, Pow256;
    NumberRead(isNull, k, rest);
    NumberRead(|raw|, k, raw + rest);
    SizedRead(conv, meta, raw, rest);
    assert (ToLE(|raw|, k) + raw) + rest == ToLE(|raw|, k) + (raw + rest);
  }

  lemma {:induction false} ChunksRead(chunks: seq<seq<byte>>, rest: seq<byte>)
    requires forall chunk :: chunk in chunks ==> 0 < |chunk| < TWO32
    ensures PlpChunks(EncodeChunks(chunks) + rest) == Ok((Join(chunks), rest))
  {
    hide Number, Pow256, ToLE;
    Pow256Values();
    if chunks == [] {
      NumberRead(0, 4, rest);
    } else {
      var body := chunks[0] + EncodeChunks(chunks[1..]);
      NumberRead(|chunks[0]|, 4, body + rest);
      assert EncodeChunks(chunks) + rest == ToLE(|chunks[0]|, 4) + (body + rest);
      assert (body + rest)[..|chunks[0]|] == chunks[0];
      assert (body + rest)[|chunks[0]|..] == EncodeChunks(chunks[1..]) + rest;
      ChunksRead(chunks[1..], rest);
    }
  }

  lemma PlpRead(conv: Convert, meta: ColumnMeta, c: WireCell, rest: seq<byte>)
    requires meta.lenKind.UShortLen? && meta.isPlp && ValidCell(meta, c)
    ensures Reads(PlpCell(conv, meta, EncodeCell(meta, c) + rest), CellValue(conv, meta, c), rest)
  {
    hide Number, PlpChunks, Pow256, ToLE, EncodeChunks, Join;
    Pow256Values();
    if c.NullCell? {
      NumberRead(TWO64 - 1, 8, rest);
    } else {
      NumberRead(c.total, 8, EncodeChunks(c.chunks) + rest);
      ChunksRead(c.chunks, rest);
      assert (ToLE(c.total, 8) + EncodeChunks(c.chunks)) + rest == ToLE(c.total, 8) + (EncodeChunks(c.chunks) + rest);
    }
  }

  lemma LongRead(conv: Convert, meta: ColumnMeta, c: WireCell, rest: seq<byte>)
    requires meta.lenKind.LongLen? && ValidCell(meta, c)
    ensures Reads(LongCell(conv, meta, EncodeCell(meta, c) + rest), CellValue(conv, meta, c), rest)
  {
    hide Number, SizedCell, Pow256, ToLE;
    Pow256Values();
    if c.NullCell? {
      NumberRead(0, 1, rest);
    } else {
      var head, data := c.pointer + c.stamp, ToLE(|c.raw|, 4) + c.raw;
      NumberRead(|c.pointer|, 1, head + (data + rest));
      NumberRead(|c.raw|, 4, c.raw + rest);
      SizedRead(conv, meta, c.raw, rest);
      assert EncodeCell(meta, c) + rest == ToLE(|c.pointer|, 1) + (head + (data + rest));
      assert (head + (data + rest))[|c.pointer| + 8..] == ToLE(|c.raw|, 4) + (c.raw + rest);
    }
  }

  /**
   Every cell, of every column kind, is read to the value it stands for and uses up exactly its own bytes:
   the reader can never run into the next column. A chunked value is its chunks joined, however it was cut.
   */
  lemma CellRoundTrip(conv: Convert, meta: ColumnMeta, c: WireCell, rest: seq<byte>)
    requires ValidCell(meta, c)
    ensures Reads(CellAt(conv, meta, EncodeCell(meta, c) + rest), CellValue(conv, meta, c), rest)
  {
    Pow256Values();
    hide PrefixedCell, SizedCell, PlpCell, LongCell, ToLE, Pow256, CellValue;
    match meta.lenKind
    case Fixed(n) => FixedRead(conv, meta, c, rest);
    case ByteLen =>
      PrefixedRead(conv, meta, 1, 0, if c.Plain? then c.raw else [], rest);
      NullValue(conv, meta, c);
    case ByteLenNoInfo =>
      PrefixedRead(conv, meta, 1, 0, if c.Plain? then c.raw else [], rest);
      NullValue(conv, meta, c);
    case UShortLen =>
      if meta.isPlp {
        PlpRead(conv, meta, c, rest);
      } else {
        PrefixedRead(conv, meta, 2, 0xFFFF, if c.Plain? then c.raw else [], rest);
        NullValue(conv, meta, c);
      }
    case LongLen => LongRead(conv, meta, c, rest);
  }

  lemma NullValue(conv: Convert, meta: ColumnMeta, c: WireCell)
    ensures c.NullCell? ==> CellValue(conv, meta, c) == Ok(None)
  {
  }

  lemma FixedRead(conv: Convert, meta: ColumnMeta, c: WireCell, rest: seq<byte>)
    requires meta.lenKind.Fixed? && ValidCell(meta, c)
    ensures Reads(CellAt(conv, meta, EncodeCell(meta, c) + rest), CellValue(conv, meta, c), rest)
  {
    hide SizedCell;
    if c.Plain? {
      SizedRead(conv, meta, c.raw, rest);
    } else {
      assert EncodeCell(meta, c) + rest == rest;
    }
  }

  // ----- rows and columns -----

  predicate ValidRow(columns: seq<ColumnMeta>, cells: seq<WireCell>) {
    |columns| == |cells| && forall i :: 0 <= i < |cells| ==> ValidCell(columns[i], cells[i])
  }

  function EncodeRow(columns: seq<ColumnMeta>, cells: seq<WireCell>): seq<byte>
    requires ValidRow(columns, cells)
  {
    if cells == [] then [] else EncodeCell(columns[0], cells[0]) + EncodeRow(columns[1..], cells[1..])
  }

  function RowValue(conv: Convert, columns: seq<ColumnMeta>, cells: seq<WireCell>): Result<Row>
    requires |columns| == |cells|
  {
    if cells == [] then Ok([])
    else match CellValue(conv, columns[0], cells[0])
      case Err => Err
      case Ok(cell) => Prepend([cell], RowValue(conv, columns[1..], cells[1..]))
  }

  lemma {:induction false} RowRoundTrip(conv: Convert, columns: seq<ColumnMeta>, cells: seq<WireCell>, rest: seq<byte>)
    requires ValidRow(columns, cells)
    ensures RowAt(conv, columns, EncodeRow(columns, cells) + rest)
         == match RowValue(conv, columns, cells) { case Err => Err case Ok(row) => Ok((row, rest)) }
  {
    hide CellAt, EncodeCell, CellValue, ValidCell;
    if cells == [] {
      assert EncodeRow(columns, cells) + rest == rest;
    } else {
      var more := EncodeRow(columns[1..], cells[1..]);
      CellRoundTrip(conv, columns[0], cells[0], more + rest);
      assert EncodeRow(columns, cells) + rest == EncodeCell(columns[0], cells[0]) + (more + rest);
      RowRoundTrip(conv, columns[1..], cells[1..], rest);
    }
  }

  /** A column of COLMETADATA: user type and flags, type, and name in UTF-16 units. */
  datatype Column = Column(header: seq<byte>, info: TypeInfo, name: seq<byte>)

  predicate ValidColumn(c: Column) {
    |c.header| == 6 && ValidTypeInfo(c.info) && |c.name| % 2 == 0 && |c.name| / 2 < 256
  }

  function EncodeColumn(c: Column): seq<byte>
    requires ValidColumn(c)
  {
    c.header + (EncodeTypeInfo(c.info) + (ToLE(|c.name| / 2, 1) + c.name))
  }

  function EncodeColumns(columns: seq<Column>): seq<byte>
    requires forall c :: c in columns ==> ValidColumn(c)
  {
    if columns == [] then [] else EncodeColumn(columns[0]) + EncodeColumns(columns[1..])
  }

  function Metas(columns: seq<Column>): seq<ColumnMeta> {
    if columns == [] then [] else [MetaOf(columns[0].info)] + Metas(columns[1..])
  }

  lemma ColumnRead(c: Column, rest: seq<byte>)
    requires ValidColumn(c)
    ensures ColumnAt(EncodeColumn(c) + rest) == Ok((MetaOf(c.info), rest))
  {
    hide ParseTypeInfo, EncodeTypeInfo, MetaOf, ValidTypeInfo, Number, ToLE, Pow256;
    var name := ToLE(|c.name| / 2, 1) + (c.name + rest);
    TypeInfoRoundTrip(c.info, name);
    Pow256Values();
    NumberRead(|c.name| / 2, 1, c.name + rest);
    assert EncodeColumn(c) + rest == c.header + (EncodeTypeInfo(c.info) + name);
    assert (EncodeColumn(c) + rest)[6..] == EncodeTypeInfo(c.info) + name;
    assert (c.name + rest)[|c.name|..] == rest;
  }

  lemma {:induction false} ColumnsRead(columns: seq<Column>, rest: seq<byte>)
    requires forall c :: c in columns ==> ValidColumn(c)
    ensures ColumnsAt(|columns|, EncodeColumns(columns) + rest) == Ok((Metas(columns), rest))
  {
    hide ColumnAt, EncodeColumn, MetaOf, ValidColumn;
    if columns == [] {
      assert EncodeColumns(columns) + rest == rest;
    } else {
      var more := EncodeColumns(columns[1..]);
      ColumnRead(columns[0], more + rest);
      assert EncodeColumns(columns) + rest == EncodeColumn(columns[0]) + (more + rest);
      ColumnsRead(columns[1..], rest);
    }
  }

  // ----- token streams -----

  datatype Token =
    | ColMetadata(columns: seq<Column>)
    | NoMetadata
    | RowData(oldStyle: bool, cells: seq<WireCell>)
    | RowFormat(wide: bool, body: seq<byte>)

  predicate ValidToken(columns: seq<ColumnMeta>, t: Token) {
    match t
    case ColMetadata(cols) => |cols| < 0xFFFF && forall c :: c in cols ==> ValidColumn(c)
    case NoMetadata => true
    case RowData(_, cells) => ValidRow(columns, cells)
    case RowFormat(wide, body) => |body| < if wide then 0x1_0000 else 256
  }

  function EncodeToken(columns: seq<ColumnMeta>, t: Token): (s: seq<byte>)
    requires ValidToken(columns, t)
    ensures s != []
  {
    match t
    case ColMetadata(cols) => [0x81] + (ToLE(|cols|, 2) + EncodeColumns(cols))
    case NoMetadata => [0x81] + ToLE(0xFFFF, 2)
    case RowData(oldStyle, cells) => [if oldStyle then 0xC1 else 0xD1] + EncodeRow(columns, cells)
    case RowFormat(wide, body) =>
      if wide then [0xC3] + (ToLE(|body|, 2) + body) else [0xC2] + (ToLE(|body|, 1) + body)
  }

  /** The columns in force after a token. */
  function ColumnsAfter(columns: seq<ColumnMeta>, t: Token): seq<ColumnMeta> {
    match t
    case ColMetadata(cols) => Metas(cols)
    case NoMetadata => []
    case _ => columns
  }

  predicate ValidStream(columns: seq<ColumnMeta>, tokens: seq<Token>)
    decreases tokens
  {
    tokens == [] || (ValidToken(columns, tokens[0]) && ValidStream(ColumnsAfter(columns, tokens[0]), tokens[1..]))
  }

  function EncodeStream(columns: seq<ColumnMeta>, tokens: seq<Token>): seq<byte>
    requires ValidStream(columns, tokens)
    decreases tokens
  {
    if tokens == [] then []
    else EncodeToken(columns, tokens[0]) + EncodeStream(ColumnsAfter(columns, tokens[0]), tokens[1..])
  }

  /** The rows a stream carries, each read under the columns announced last before it. */
  function RowsOf(conv: Convert, columns: seq<ColumnMeta>, tokens: seq<Token>): Result<seq<Row>>
    requires ValidStream(columns, tokens)
    decreases tokens
  {
    if tokens == [] then Ok([])
    else
      var more := RowsOf(conv, ColumnsAfter(columns, tokens[0]), tokens[1..]);
      if tokens[0].RowData? then
        match RowValue(conv, columns, tokens[0].cells)
        case Err => Err
        case Ok(row) => Prepend([row], more)
      else more
  }

  /** The end of a reply: no bytes, DONE or DONEPROC, or a token the reader does not know. */
  predicate Ends(tail: seq<byte>) {
    tail == [] || tail[0] !in [0x81, 0xD1, 0xC1, 0xD2, 0xC3, 0xC2]
  }

  lemma SkipRead(columns: seq<ColumnMeta>, k: nat, body: seq<byte>, rest: seq<byte>)
    requires |body| < Pow256(k)
    ensures Skip(columns, k, (ToLE(|body|, k) + body) + rest) == Go(columns, [], rest)
  {
    hide Number, ToLE, Pow256;
    NumberRead(|body|, k, body + rest);
    assert (ToLE(|body|, k) + body) + rest == ToLE(|body|, k) + (body + rest);
    assert (body + rest)[|body|..] == rest;
  }

  lemma MetadataRead(columns: seq<Column>, rest: seq<byte>)
    requires |columns| < 0xFFFF && forall c :: c in columns ==> ValidColumn(c)
    ensures Metadata((ToLE(|columns|, 2) + EncodeColumns(columns)) + rest) == Go(Metas(columns), [], rest)
    ensures Metadata(ToLE(0xFFFF, 2) + rest) == Go([], [], rest)
  {
    hide Number, ToLE, Pow256, ColumnsAt, EncodeColumns, Metas, ValidColumn;
    Pow256Values();
    NumberRead(0xFFFF, 2, rest);
    NumberRead(|columns|, 2, EncodeColumns(columns) + rest);
    ColumnsRead(columns, rest);
    assert (ToLE(|columns|, 2) + EncodeColumns(columns)) + rest == ToLE(|columns|, 2) + (EncodeColumns(columns) + rest);
  }

  /** What reading one token must do. */
  function TokenOutcome(conv: Convert, columns: seq<ColumnMeta>, t: Token, rest: seq<byte>): Outcome
    requires ValidToken(columns, t)
  {
    if t.RowData? then
      match RowValue(conv, columns, t.cells)
      case Err => Fail
      case Ok(row) => Go(columns, [row], rest)
    else Go(ColumnsAfter(columns, t), [], rest)
  }

  lemma TokenRead(conv: Convert, columns: seq<ColumnMeta>, t: Token, rest: seq<byte>)
    requires ValidToken(columns, t)
    ensures var s := EncodeToken(columns, t);
            TokenAt(conv, columns, s[0], s[1..] + rest) == TokenOutcome(conv, columns, t, rest)
  {
    hide Skip, Metadata, ToLE, Pow256, RowAt, EncodeRow, EncodeColumns, ValidRow, ValidColumn, Metas, RowValue;
    var s := EncodeToken(columns, t);
    Pow256Values();
    match t
    case ColMetadata(cols) =>
      MetadataRead(cols, rest);
      assert s[1..] == ToLE(|cols|, 2) + EncodeColumns(cols);
    case NoMetadata =>
      MetadataRead([], rest);
      assert s[1..] == ToLE(0xFFFF, 2);
    case RowData(_, cells) =>
      RowRoundTrip(conv, columns, cells, rest);
      assert s[1..] == EncodeRow(columns, cells);
    case RowFormat(wide, body) =>
      var k := if wide then 2 else 1;
      SkipRead(columns, k, body, rest);
      assert s[1..] == ToLE(|body|, k) + body;
  }

  /** One token in front of a stream. */
  lemma TokenStep(conv: Convert, columns: seq<ColumnMeta>, t: Token, more: seq<byte>)
    requires ValidToken(columns, t)
    ensures var after := ResultSet(conv, ColumnsAfter(columns, t), more);
            ResultSet(conv, columns, EncodeToken(columns, t) + more) ==
              if t.RowData? then
                (match RowValue(conv, columns, t.cells)
                 case Err => Err
                 case Ok(row) => Prepend([row], after))
              else after
  {
    hide TokenAt, EncodeToken, ValidToken, ColumnsAfter, RowValue;
    var s := EncodeToken(columns, t);
    var p := s + more;
    assert p[0] == s[0] && p[1..] == s[1..] + more;
    TokenRead(conv, columns, t, more);
    RowKeepsColumns(columns, t);
    PrependJoin<Row>([], [], ResultSet(conv, ColumnsAfter(columns, t), more));
  }

  /**
   Any sequence of column descriptions, rows and old-style row formats, however they are mixed, followed by
   any ending, is read to exactly its rows; the reply fails only when a cell's text does.
   */
  lemma {:induction false} StreamRoundTrip(conv: Convert, columns: seq<ColumnMeta>, tokens: seq<Token>, tail: seq<byte>)
    requires ValidStream(columns, tokens) && Ends(tail)
    ensures ResultSet(conv, columns, EncodeStream(columns, tokens) + tail) == RowsOf(conv, columns, tokens)
    decreases tokens
  {
    hide ResultSet, EncodeToken, ValidToken, ColumnsAfter, RowValue;
    if tokens == [] {
      assert EncodeStream(columns, tokens) + tail == tail;
      Ending(conv, columns, tail);
    } else {
      var t := tokens[0];
      var more := EncodeStream(ColumnsAfter(columns, t), tokens[1..]) + tail;
      assert EncodeStream(columns, tokens) + tail == EncodeToken(columns, t) + more;
      StreamRoundTrip(conv, ColumnsAfter(columns, t), tokens[1..], tail);
      TokenStep(conv, columns, t, more);
    }
  }

  lemma RowKeepsColumns(columns: seq<ColumnMeta>, t: Token)
    ensures t.RowData? ==> ColumnsAfter(columns, t) == columns
  {
  }

  lemma Ending(conv: Convert, columns: seq<ColumnMeta>, tail: seq<byte>)
    requires Ends(tail)
    ensures ResultSet(conv, columns, tail) == Ok([])
  {
    assert tail != [] ==> TokenAt(conv, columns, tail[0], tail[1..]) == Stop;
  }

  // ----- compressed rows -----

  /** After any valid stream, a compressed row (0xD2) fails the reply, whatever was read and whatever follows. */
  lemma {:induction false} CompressedRowFails(conv: Convert, columns: seq<ColumnMeta>, tokens: seq<Token>,
                                              tail: seq<byte>)
    requires ValidStream(columns, tokens)
    ensures ResultSet(conv, columns, EncodeStream(columns, tokens) + ([0xD2] + tail)) == Err
    decreases tokens
  {
    hide ResultSet, EncodeToken, ValidToken, ColumnsAfter, RowValue;
    var bad := [0xD2] + tail;
    if tokens == [] {
      assert EncodeStream(columns, tokens) + bad == bad;
      CompressedRow(conv, columns, tail);
    } else {
      var t := tokens[0];
      var more := EncodeStream(ColumnsAfter(columns, t), tokens[1..]) + bad;
      CompressedRowFails(conv, ColumnsAfter(columns, t), tokens[1..], tail);
      TokenStep(conv, columns, t, more);
      assert EncodeStream(columns, tokens) + bad == EncodeToken(columns, t) + more;
    }
  }

  lemma CompressedRow(conv: Convert, columns: seq<ColumnMeta>, tail: seq<byte>)
    ensures ResultSet(conv, columns, [0xD2] + tail) == Err
  {
    assert ([0xD2] + tail)[0] == 0xD2;
  }
}
