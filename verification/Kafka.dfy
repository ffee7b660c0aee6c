/**
 Kafka record batches (magic 2) and the full-partition reader: `decode_record_batch` and `read_all`.
 Indexing past the end of a slice, which panics in the original, is an `Err` here.
 */
module Kafka {
  import opened Bytes
  import opened Wrappers
  import opened Varint

  datatype Record = Record(offset: int, key: Option<seq<byte>>, value: Option<seq<byte>>, ts: int)

  function I64(s: seq<byte>): int
    requires |s| == 8
  {
    AsSigned(FromBE(s), TWO64)
  }

  /** 64-bit addition as the release build performs it. */
  function Add64(a: int, b: int): int {
    AsSigned((a + b) % TWO64, TWO64)
  }

  // ----- decoding -----

  /** A length-prefixed byte string; a negative length is no string. */
  function NullableBytes(rp: seq<byte>): Result<(Option<seq<byte>>, seq<byte>)> {
    match DecodeVarint(rp)
    case Err => Err
    case Ok((len, n)) =>
      if len < 0 then Ok((None, rp[n..]))
      else if |rp| - n < len then Err
      else Ok((Some(rp[n..n + len]), rp[n + len..]))
  }

  /** Skips `count` headers, each a key and a value. */
  function SkipHeaders(count: nat, rp: seq<byte>): Result<seq<byte>> {
    if count == 0 then Ok(rp)
    else match NullableBytes(rp)
      case Err => Err
      case Ok((_, rest)) =>
        match NullableBytes(rest)
        case Err => Err
        case Ok((_, rest')) => SkipHeaders(count - 1, rest')
  }

  datatype Body = Body(tsDelta: int, key: Option<seq<byte>>, value: Option<seq<byte>>)

  function KeyValueHeaders(tsDelta: int, rp: seq<byte>): Result<(Body, seq<byte>)> {
    match NullableBytes(rp)
    case Err => Err
    case Ok((key, rp1)) =>
      match NullableBytes(rp1)
      case Err => Err
      case Ok((value, rp2)) =>
        match DecodeVarint(rp2)
        case Err => Err
        case Ok((count, n)) =>
          match SkipHeaders(if count < 0 then 0 else count, rp2[n..])
          case Err => Err
          case Ok(rest) => Ok((Body(tsDelta, key, value), rest))
  }

  /** One record: length (not used), attributes, timestamp delta, offset delta (not used), key, value, headers. */
  function DecodeRecord(rp: seq<byte>): Result<(Body, seq<byte>)> {
    match DecodeVarint(rp)
    case Err => Err
    case Ok((_, n)) =>
      if n + 1 > |rp| then Err
      else match DecodeVarlong(rp[n + 1..])
        case Err => Err
        case Ok((tsDelta, m)) =>
          match DecodeVarint(rp[n + 1 + m..])
          case Err => Err
          case Ok((_, k)) => KeyValueHeaders(tsDelta, rp[n + 1 + m + k..])
  }

  /** The records from number `i` up to `count`. */
  function DecodeRecords(i: nat, count: nat, base: int, firstTs: int, rp: seq<byte>): Result<seq<Record>>
    requires i <= count
    decreases count - i
  {
    if i == count then Ok([])
    else match DecodeRecord(rp)
      case Err => Err
      case Ok((body, rest)) =>
        Prepend([Record(Add64(base, i), body.key, body.value, Add64(firstTs, body.tsDelta))],
                DecodeRecords(i + 1, count, base, firstTs, rest))
  }

  const HEADER: nat := 49

  /** Where a batch ends: a length past the buffer, or one so negative that it reads as huge, means the buffer's end. */
  function BatchEnd(length: int, size: nat): (end: nat)
    requires size >= 12 && (length < -12 || length >= 0)
    ensures 12 <= end <= size
  {
    if 0 <= length && 12 + length < size then 12 + length else size
  }

  /** The first batch in `buf`. */
  function DecodeBatch(buf: seq<byte>): Result<seq<Record>> {
    if |buf| < 21 then Ok([])
    else
      var length := BigI32(buf[8..12]);
      if -12 <= length < 0 then Err // the end wraps to before the start
      else
        var b := buf[12..BatchEnd(length, |buf|)];
        if |b| < HEADER || b[4] != 2 then Err
        else if b[10] % 8 != 0 then Err // compressed
        else if BigI32(b[45..49]) < 0 then Err
        else DecodeRecords(0, BigI32(b[45..49]), I64(buf[0..8]), I64(b[15..23]), b[HEADER..])
  }

  method ReadHeaders(count: int, rp: seq<byte>) returns (r: Result<seq<byte>>)
    ensures r == SkipHeaders(if count < 0 then 0 else count, rp)
  {
    hide NullableBytes;
    var n := if count < 0 then 0 else count;
    var data := rp;
    for i := 0 to n
      invariant SkipHeaders(n, rp) == SkipHeaders(n - i, data)
    {
      var key := NullableBytes(data);
      if key.Err? { return Err; }
      var value := NullableBytes(key.value.1);
      if value.Err? { return Err; }
      data := value.value.1;
    }
    return Ok(data);
  }

  method ReadRecord(rp: seq<byte>) returns (r: Result<(Body, seq<byte>)>)
    ensures r == DecodeRecord(rp)
  {
    hide NullableBytes, SkipHeaders, DecodeVarint, DecodeVarlong;
    var data := rp;
    var len := ReadVarint(data);
    if len.Err? || len.value.1 + 1 > |data| { return Err; }
    var n := len.value.1;
    data := rp[n + 1..];
    var tsDelta := ReadVarlong(data);
    if tsDelta.Err? { return Err; }
    n := n + 1 + tsDelta.value.1;
    assert data[tsDelta.value.1..] == rp[n..];
    data := rp[n..];
    var offDelta := ReadVarint(data);
    if offDelta.Err? { return Err; }
    n := n + offDelta.value.1;
    data := rp[n..];
    var key := NullableBytes(data);
    if key.Err? { return Err; }
    var value := NullableBytes(key.value.1);
    if value.Err? { return Err; }
    data := value.value.1;
    var count := ReadVarint(data);
    if count.Err? { return Err; }
    var rest := ReadHeaders(count.value.0, data[count.value.1..]);
    if rest.Err? { return Err; }
    return Ok((Body(tsDelta.value.0, key.value.0, value.value.0), rest.value));
  }

  method DecodeRecordBatch(buf: seq<byte>) returns (r: Result<seq<Record>>)
    ensures r == DecodeBatch(buf)
  {
    hide DecodeRecord, BigI32, I64, Add64;
    if |buf| < 21 { return Ok([]); }
    var base := I64(buf[0..8]);
    var length := BigI32(buf[8..12]);
    if -12 <= length < 0 { return Err; }
    var end := if 0 <= length && 12 + length < |buf| then 12 + length else |buf|;
    var b := buf[12..end];
    if |b| < HEADER || b[4] != 2 || b[10] % 8 != 0 { return Err; }
    var firstTs := I64(b[15..23]);
    var count := BigI32(b[45..49]);
    if count < 0 { return Err; }
    var records: seq<Record> := [];
    var rp := b[HEADER..];
    PrependJoin(records, [], DecodeRecords(0, count, base, firstTs, rp));
    for i := 0 to count
      invariant DecodeBatch(buf) == Prepend(records, DecodeRecords(i, count, base, firstTs, rp))
    {
      var next := ReadRecord(rp);
      if next.Err? { return Err; }
      var (body, rest) := next.value;
      var record := Record(Add64(base, i), body.key, body.value, Add64(firstTs, body.tsDelta));
      PrependJoin(records, [record], DecodeRecords(i + 1, count, base, firstTs, rest));
      records, rp := records + [record], rest;
    }
    PrependJoin(records, [], Ok([]));
    return Ok(records);
  }

  // ----- the format, from the Kafka protocol's record batch layout -----

  datatype WireRecord = WireRecord(
    attributes: byte, tsDelta: int, offsetDelta: int, key: Option<seq<byte>>, value: Option<seq<byte>>,
    headers: seq<(Option<seq<byte>>, Option<seq<byte>>)>)

  function EncodeNullable(b: Option<seq<byte>>): seq<byte> {
    match b
    case None => Encode(-1)
    case Some(s) => Encode(|s|) + s
  }

  function EncodeHeaders(headers: seq<(Option<seq<byte>>, Option<seq<byte>>)>): seq<byte> {
    if headers == [] then []
    else EncodeNullable(headers[0].0) + (EncodeNullable(headers[0].1) + EncodeHeaders(headers[1..]))
  }

  function EncodeBody(r: WireRecord): seq<byte> {
    [r.attributes] + (Encode(r.tsDelta) + (Encode(r.offsetDelta) +
      (EncodeNullable(r.key) + (EncodeNullable(r.value) + (Encode(|r.headers|) + EncodeHeaders(r.headers))))))
  }

  function EncodeRecord(r: WireRecord): seq<byte> {
    Encode(|EncodeBody(r)|) + EncodeBody(r)
  }

  function EncodeRecords(rs: seq<WireRecord>): seq<byte> {
    if rs == [] then [] else EncodeRecord(rs[0]) + EncodeRecords(rs[1..])
  }

  /** Leader epoch and checksum; attributes; last offset delta; the 22 bytes from the maximum timestamp on. */
  datatype Batch = Batch(
    base: int, epoch: seq<byte>, crc: seq<byte>, attributes: seq<byte>, lastOffsetDelta: nat,
    firstTs: int, producer: seq<byte>, records: seq<WireRecord>)

  function BatchTail(b: Batch): seq<byte> {
    b.epoch + [2] + b.crc + b.attributes + ToBE(b.lastOffsetDelta, 4) + ToBE(b.firstTs % TWO64, 8) + b.producer
      + ToBE(|b.records|, 4) + EncodeRecords(b.records)
  }

  function EncodeBatch(b: Batch): seq<byte> {
    ToBE(b.base % TWO64, 8) + ToBE(|BatchTail(b)|, 4) + BatchTail(b)
  }

  const LIMIT: int := 0x4000_0000

  predicate ShortEnough(b: Option<seq<byte>>) {
    b.Some? ==> |b.value| < LIMIT
  }

  predicate RecordOk(r: WireRecord, firstTs: int) {
    && -0x4000_0000_0000_0000 <= r.tsDelta < 0x4000_0000_0000_0000
    && -TWO63 <= firstTs + r.tsDelta < TWO63
    && -TWO31 <= r.offsetDelta < TWO31
    && ShortEnough(r.key) && ShortEnough(r.value) && |r.headers| < LIMIT
    && (forall i :: 0 <= i < |r.headers| ==> ShortEnough(r.headers[i].0) && ShortEnough(r.headers[i].1))
    && |EncodeBody(r)| < TWO31
  }

  predicate BatchOk(b: Batch) {
    && -TWO63 <= b.base < TWO63 && b.base + |b.records| <= TWO63
    && -TWO63 <= b.firstTs < TWO63
    && |b.epoch| == 4 && |b.crc| == 4 && |b.attributes| == 2 && b.attributes[1] % 8 == 0
    && b.lastOffsetDelta < TWO31 && |b.producer| == 22
    && |b.records| < TWO31 && |BatchTail(b)| < TWO31
    && forall i :: 0 <= i < |b.records| ==> RecordOk(b.records[i], b.firstTs)
  }

  /** The records a batch stands for, from number `i` on. */
  function Meaning(rs: seq<WireRecord>, i: nat, base: int, firstTs: int): (out: seq<Record>)
    ensures |out| == |rs|
    ensures forall k :: 0 <= k < |rs| ==>
      out[k] == Record(base + i + k, rs[k].key, rs[k].value, firstTs + rs[k].tsDelta)
  {
    if rs == [] then []
    else [Record(base + i, rs[0].key, rs[0].value, firstTs + rs[0].tsDelta)] + Meaning(rs[1..], i + 1, base, firstTs)
  }

  // ----- round trip -----

  lemma NullableRoundTrip(b: Option<seq<byte>>, rest: seq<byte>)
    requires ShortEnough(b)
    ensures NullableBytes(EncodeNullable(b) + rest) == Ok((b, rest))
  {
    hide DecodeVarint, Encode;
    match b
    case None =>
      VarintRoundTrip(-1, rest);
      assert (Encode(-1) + rest)[|Encode(-1)|..] == rest;
    case Some(s) =>
      VarintRoundTrip(|s|, s + rest);
      var e := Encode(|s|);
      var all := EncodeNullable(b) + rest;
      assert all == e + (s + rest);
      assert all[|e|..|e| + |s|] == s && all[|e| + |s|..] == rest;
  }

  lemma {:induction false} HeadersRoundTrip(headers: seq<(Option<seq<byte>>, Option<seq<byte>>)>, rest: seq<byte>)
    requires forall i :: 0 <= i < |headers| ==> ShortEnough(headers[i].0) && ShortEnough(headers[i].1)
    ensures SkipHeaders(|headers|, EncodeHeaders(headers) + rest) == Ok(rest)
  {
    hide NullableBytes, EncodeNullable, ShortEnough;
    if headers == [] {
      assert EncodeHeaders(headers) + rest == rest;
    } else {
      HeadersRoundTrip(headers[1..], rest);
      var more := EncodeHeaders(headers[1..]) + rest;
      var key, value := EncodeNullable(headers[0].0), EncodeNullable(headers[0].1);
      NullableRoundTrip(headers[0].1, more);
      NullableRoundTrip(headers[0].0, value + more);
      assert EncodeHeaders(headers) + rest == key + (value + more);
    }
  }

  /** Dropping the encoding of an integer leaves what followed it. */
  lemma DropEncoded(v: int, rest: seq<byte>)
    ensures (Encode(v) + rest)[|Encode(v)|..] == rest
  {
  }

  lemma KeyValueRoundTrip(r: WireRecord, rest: seq<byte>)
    requires ShortEnough(r.key) && ShortEnough(r.value) && |r.headers| < LIMIT
    requires forall i :: 0 <= i < |r.headers| ==> ShortEnough(r.headers[i].0) && ShortEnough(r.headers[i].1)
    ensures KeyValueHeaders(r.tsDelta,
      EncodeNullable(r.key) + (EncodeNullable(r.value) + (Encode(|r.headers|) + (EncodeHeaders(r.headers) + rest))))
      == Ok((Body(r.tsDelta, r.key, r.value), rest))
  {
    hide NullableBytes, EncodeNullable, ShortEnough, SkipHeaders, EncodeHeaders, DecodeVarint, Encode;
    var d := EncodeHeaders(r.headers) + rest;
    var c := Encode(|r.headers|) + d;
    var b := EncodeNullable(r.value) + c;
    NullableRoundTrip(r.key, b);
    NullableRoundTrip(r.value, c);
    VarintRoundTrip(|r.headers|, d);
    DropEncoded(|r.headers|, d);
    HeadersRoundTrip(r.headers, rest);
  }

  lemma RecordRoundTrip(r: WireRecord, firstTs: int, rest: seq<byte>)
    requires RecordOk(r, firstTs)
    ensures DecodeRecord(EncodeRecord(r) + rest) == Ok((Body(r.tsDelta, r.key, r.value), rest))
  {
    hide NullableBytes, EncodeNullable, ShortEnough, EncodeHeaders, DecodeVarint, DecodeVarlong, Encode,
      KeyValueHeaders;
    var d := EncodeNullable(r.key) +
      (EncodeNullable(r.value) + (Encode(|r.headers|) + (EncodeHeaders(r.headers) + rest)));
    var c := Encode(r.offsetDelta) + d;
    var b := Encode(r.tsDelta) + c;
    var a := [r.attributes] + b;
    var len := |EncodeBody(r)|;
    var all := Encode(len) + a;
    assert EncodeBody(r) + rest == a;
    assert EncodeRecord(r) + rest == all;
    VarintRoundTrip(len, a);
    VarlongRoundTrip(r.tsDelta, c);
    VarintRoundTrip(r.offsetDelta, d);
    KeyValueRoundTrip(r, rest);
    var n := |Encode(len)|;
    assert all[n + 1..] == b;
    var m := n + 1 + |Encode(r.tsDelta)|;
    assert all[m..] == c;
    assert all[m + |Encode(r.offsetDelta)|..] == d;
  }

  lemma AddInRange(a: int, b: int)
    requires -TWO63 <= a + b < TWO63
    ensures Add64(a, b) == a + b
  {
  }

  lemma TimestampInRange(r: WireRecord, firstTs: int)
    requires RecordOk(r, firstTs)
    ensures Add64(firstTs, r.tsDelta) == firstTs + r.tsDelta
  {
    AddInRange(firstTs, r.tsDelta);
  }

  lemma {:induction false} RecordsRoundTrip(rs: seq<WireRecord>, i: nat, count: nat, base: int, firstTs: int)
    requires i + |rs| == count && -TWO63 <= base && base + count <= TWO63
    requires forall k :: 0 <= k < |rs| ==> RecordOk(rs[k], firstTs)
    ensures DecodeRecords(i, count, base, firstTs, EncodeRecords(rs)) == Ok(Meaning(rs, i, base, firstTs))
  {
    hide DecodeRecord, EncodeRecord, Add64, RecordOk;
    if rs != [] {
      RecordRoundTrip(rs[0], firstTs, EncodeRecords(rs[1..]));
      AddInRange(base, i);
      TimestampInRange(rs[0], firstTs);
      RecordsRoundTrip(rs[1..], i + 1, count, base, firstTs);
    }
  }

  lemma SignedRoundTrip64(v: int)
    requires -TWO63 <= v < TWO63
    ensures I64(ToBE(v % TWO64, 8)) == v
  {
    Pow256Values();
    FromBEToBE(v % TWO64, 8);
  }

  /** The fixed fields lie where the decoder looks for them. */
  lemma BatchLayout(b: Batch, tail: seq<byte>)
    requires BatchOk(b)
    ensures var t := BatchTail(b); var buf := EncodeBatch(b) + tail;
      && |t| >= HEADER && |buf| >= 12 + |t| && buf[0..8] == ToBE(b.base % TWO64, 8)
      && buf[8..12] == ToBE(|t|, 4) && buf[12..12 + |t|] == t
      && t[4] == 2 && t[10] == b.attributes[1] && t[15..23] == ToBE(b.firstTs % TWO64, 8)
      && t[45..49] == ToBE(|b.records|, 4) && t[HEADER..] == EncodeRecords(b.records)
  {
    hide EncodeRecords, ToBE, RecordOk;
  }

  /**
   An uncompressed batch, whatever bytes follow it, decodes to its records: the same keys and
   values, contiguous offsets from the base, timestamps relative to the first.
   */
  lemma BatchRoundTrip(b: Batch, tail: seq<byte>)
    requires BatchOk(b)
    ensures DecodeBatch(EncodeBatch(b) + tail) == Ok(Meaning(b.records, 0, b.base, b.firstTs))
  {
    hide EncodeBatch, BatchTail, DecodeRecords, EncodeRecords, RecordOk, BigI32, I64, ToBE, Meaning;
    BatchLayout(b, tail);
    SignedRoundTrip64(b.base);
    SignedRoundTrip64(b.firstTs);
    BigI32OfLength(|BatchTail(b)|);
    BigI32OfLength(|b.records|);
    RecordsRoundTrip(b.records, 0, |b.records|, b.base, b.firstTs);
  }

  // ----- offsets -----

  /** The records of a batch at the offsets the log gave them. */
  function Stored(b: Batch): (out: seq<Record>)
    ensures |out| == |b.records|
  {
    seq(|b.records|, i requires 0 <= i < |b.records| =>
      Record(b.base + b.records[i].offsetDelta, b.records[i].key, b.records[i].value, b.firstTs + b.records[i].tsDelta))
  }

  /** The decoder numbers records by position: its offsets are right if and only if every delta is its position. */
  lemma OffsetsRight(b: Batch)
    ensures Meaning(b.records, 0, b.base, b.firstTs) == Stored(b) <==>
      forall i :: 0 <= i < |b.records| ==> b.records[i].offsetDelta == i
  {
    var out := Meaning(b.records, 0, b.base, b.firstTs);
    if out == Stored(b) {
      forall i | 0 <= i < |b.records|
        ensures b.records[i].offsetDelta == i
      {
        assert out[i].offset == Stored(b)[i].offset;
      }
    }
  }

  /** Offsets rise within a batch and end at or before its last. */
  predicate Rising(b: Batch) {
    && (forall i :: 0 <= i < |b.records| ==> 0 <= b.records[i].offsetDelta <= b.lastOffsetDelta)
    && (forall i :: 0 < i < |b.records| ==> b.records[i - 1].offsetDelta < b.records[i].offsetDelta)
  }

  /** Every offset of the batch has its record: nothing was compacted away. */
  predicate Dense(b: Batch) {
    |b.records| == b.lastOffsetDelta + 1
  }

  lemma {:induction false} AtLeastPosition(b: Batch, i: nat)
    requires Rising(b) && i < |b.records|
    ensures b.records[i].offsetDelta >= i
  {
    if i > 0 { AtLeastPosition(b, i - 1); }
  }

  lemma {:induction false} RoomAbove(b: Batch, i: nat)
    requires Rising(b) && i < |b.records|
    ensures b.records[i].offsetDelta + (|b.records| - 1 - i) <= b.lastOffsetDelta
    decreases |b.records| - i
  {
    if i + 1 < |b.records| { RoomAbove(b, i + 1); }
  }

  lemma DenseIsRight(b: Batch)
    requires Rising(b) && Dense(b)
    ensures Meaning(b.records, 0, b.base, b.firstTs) == Stored(b)
  {
    forall i | 0 <= i < |b.records|
      ensures b.records[i].offsetDelta == i
    {
      AtLeastPosition(b, i);
      RoomAbove(b, i);
    }
    OffsetsRight(b);
  }

  // ----- refused batches -----

  /** Bytes with another magic number, or with a compression in the attributes, are refused whatever else they hold. */
  lemma OthersRefused(buf: seq<byte>)
    requires |buf| >= 23
    ensures buf[16] != 2 || buf[22] % 8 != 0 ==> DecodeBatch(buf) == Err
  {
    hide DecodeRecords, BigI32, I64;
  }

  /** Fewer bytes than the fixed part of a batch header starts with are no records at all. */
  lemma ShortBuffersEmpty(buf: seq<byte>)
    requires |buf| < 21
    ensures DecodeBatch(buf) == Ok([])
  {
  }

  lemma LengthField(buf: seq<byte>)
    requires |buf| >= 21 && |buf| - 12 < TWO31
    ensures var buf' := buf[..8] + ToBE(|buf| - 12, 4) + buf[12..];
      && |buf'| == |buf| && buf'[0..8] == buf[0..8] && BigI32(buf'[8..12]) == |buf| - 12 && buf'[12..] == buf[12..]
  {
    hide ToBE, BigI32;
    BigI32OfLength(|buf| - 12);
    var buf' := buf[..8] + ToBE(|buf| - 12, 4) + buf[12..];
    assert buf'[8..12] == ToBE(|buf| - 12, 4);
  }

  /**
   A batch length past the buffer, or below -12, where it reads as huge, means the rest of the buffer; one
   from -12 to -1 wraps to before the start and fails.
   */
  lemma LengthClamped(buf: seq<byte>)
    requires |buf| >= 21 && |buf| - 12 < TWO31
    ensures var v := BigI32(buf[8..12]);
      && (v < -12 || v >= |buf| - 12 ==> DecodeBatch(buf) == DecodeBatch(buf[..8] + ToBE(|buf| - 12, 4) + buf[12..]))
      && (-12 <= v < 0 ==> DecodeBatch(buf) == Err)
  {
    hide ToBE, BigI32, I64, DecodeRecords;
    LengthField(buf);
    assert buf[12..|buf|] == buf[12..];
    var buf' := buf[..8] + ToBE(|buf| - 12, 4) + buf[12..];
    assert buf'[12..|buf'|] == buf'[12..];
  }

  /** A buffer that has a length but no room for the rest of the header fails. */
  lemma HeaderMustFit(buf: seq<byte>)
    requires 21 <= |buf| < 61
    ensures DecodeBatch(buf) == Err
  {
    hide BigI32, I64, DecodeRecords;
  }

  /** A negative number of headers is none. */
  lemma NegativeHeaderCount(tsDelta: int, key: Option<seq<byte>>, value: Option<seq<byte>>, count: int, rest: seq<byte>)
    requires ShortEnough(key) && ShortEnough(value) && -LIMIT <= count < 0
    ensures KeyValueHeaders(tsDelta, EncodeNullable(key) + (EncodeNullable(value) + (Encode(count) + rest))) ==
            Ok((Body(tsDelta, key, value), rest))
  {
    hide NullableBytes, EncodeNullable, DecodeVarint, Encode;
    NullableRoundTrip(key, EncodeNullable(value) + (Encode(count) + rest));
    NullableRoundTrip(value, Encode(count) + rest);
    VarintRoundTrip(count, rest);
    DropEncoded(count, rest);
  }
}
