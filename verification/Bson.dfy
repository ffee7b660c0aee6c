/**
 The BSON encoder and decoder of the MongoDB source. Strings stay as UTF-8 bytes and doubles as
 their eight bytes. A slice out of range, which panics in the original, is `Panicked`.
 */
module Bson {
  import opened Bytes
  import opened Wrappers

  type Name = seq<byte>

  datatype Field = Field(name: Name, value: Value)

  datatype Value =
    | Double(bits: seq<byte>)
    | Str(text: seq<byte>)
    | Document(fields: seq<Field>)
    | Array(items: seq<Value>)
    | Boolean(b: bool)
    | Null
    | Int32(i: int)
    | Int64(l: int)
    | ObjectId(id: seq<byte>)
    | Binary(data: seq<byte>)
    | Unknown

  datatype Outcome<+T> = Done(value: T) | Failed | Panicked

  function I32(s: seq<byte>): int
    requires |s| == 4
  {
    AsSigned(FromLE(s), TWO32)
  }

  function I64(s: seq<byte>): int
    requires |s| == 8
  {
    AsSigned(FromLE(s), TWO64)
  }

  // ----- decoding -----

  /** The bytes of the document after its length field: a length past the buffer means the whole buffer. */
  function DocData(buf: seq<byte>): (r: Outcome<seq<byte>>)
    ensures r.Done? ==> |r.value| < |buf|
  {
    if |buf| < 5 then Failed
    else
      var len := I32(buf[0..4]);
      if 0 <= len < 4 then Panicked
      else Done(buf[4..if 0 <= len < |buf| then len else |buf|])
  }

  function DecodeDoc(buf: seq<byte>): Outcome<seq<Field>>
    decreases |buf|, 0
  {
    match DocData(buf)
    case Failed => Failed
    case Panicked => Panicked
    case Done(data) => Elements(data)
  }

  function Elements(p: seq<byte>): Outcome<seq<Field>>
    decreases |p|, 3
  {
    if p == [] || p[0] == 0 then Done([])
    else
      var q := p[1..];
      var n := NulAt(q);
      if n == |q| then Panicked
      else
        var body := q[n + 1..];
        match DecodeValue(p[0], body)
        case Failed => Failed
        case Panicked => Panicked
        case Done((value, consumed)) =>
          match Elements(body[consumed..])
          case Failed => Failed
          case Panicked => Panicked
          case Done(more) => Done([Field(q[..n], value)] + more)
  }

  /** A failed inner document counts as empty. */
  function OrEmpty(r: Outcome<seq<Field>>): Outcome<seq<Field>> {
    if r.Failed? then Done([]) else r
  }

  function ValuesOf(fields: seq<Field>): (vs: seq<Value>)
    ensures |vs| == |fields|
  {
    if fields == [] then [] else [fields[0].value] + ValuesOf(fields[1..])
  }

  function DecodeValue(kind: byte, buf: seq<byte>): (r: Outcome<(Value, nat)>)
    ensures r.Done? ==> r.value.1 <= |buf|
    decreases |buf|, 2
  {
    match kind
    case 0x01 => if |buf| < 8 then Done((Unknown, 0)) else Done((Double(buf[..8]), 8))
    case 0x02 =>
      if |buf| < 4 then Done((Unknown, 0))
      else
        var len := I32(buf[0..4]);
        if -4 <= len <= 0 then Panicked // the end wraps, or falls, to before the start
        else if len < 0 || |buf| < 4 + len then Done((Unknown, |buf|))
        else Done((Str(buf[4..4 + len - 1]), 4 + len))
    case 0x03 => DecodeNested(buf, false)
    case 0x04 => DecodeNested(buf, true)
    case 0x05 =>
      if |buf| < 5 then Done((Unknown, 0))
      else
        var len := I32(buf[0..4]);
        if -5 <= len < 0 then Panicked
        else if len < 0 || |buf| < 5 + len then Done((Unknown, |buf|))
        else Done((Binary(buf[5..5 + len]), 5 + len))
    case 0x07 => if |buf| < 12 then Done((Unknown, 0)) else Done((ObjectId(buf[..12]), 12))
    case 0x08 => if buf == [] then Done((Unknown, 0)) else Done((Boolean(buf[0] != 0), 1))
    case 0x0A => Done((Null, 0))
    case 0x10 => if |buf| < 4 then Done((Unknown, 0)) else Done((Int32(I32(buf[0..4])), 4))
    case 0x12 => if |buf| < 8 then Done((Unknown, 0)) else Done((Int64(I64(buf[0..8])), 8))
    case _ => Done((Unknown, |buf|))
  }

  function DecodeNested(buf: seq<byte>, array_: bool): (r: Outcome<(Value, nat)>)
    ensures r.Done? ==> r.value.1 <= |buf|
    decreases |buf|, 1
  {
    if |buf| < 4 then Done((Unknown, 0))
    else
      var len := I32(buf[0..4]);
      if len < 0 || |buf| < len then Done((Unknown, |buf|))
      else match OrEmpty(DecodeDoc(buf[..len]))
        case Failed => Failed
        case Panicked => Panicked
        case Done(fields) => Done((if array_ then Array(ValuesOf(fields)) else Document(fields), len))
  }

  /** The loop over elements, calling the case analysis. */
  method ReadDoc(buf: seq<byte>) returns (r: Outcome<seq<Field>>)
    ensures r == DecodeDoc(buf)
    decreases |buf|, 0
  {
    hide DecodeValue, NulAt, InFront, DocData;
    var data := DocData(buf);
    if data.Failed? { return Failed; }
    if data.Panicked? { return Panicked; }
    var out: seq<Field> := [];
    var p := data.value;
    FrontSnoc(out, Field([], Null), Elements(p));
    while p != [] && p[0] != 0
      invariant |p| < |buf|
      invariant DecodeDoc(buf) == InFront(out, Elements(p))
      decreases |p|
    {
      var kind := p[0];
      var q := p[1..];
      var n := NulAt(q);
      ElementsStep(p);
      PanicStays(out);
      if n == |q| { return Panicked; }
      var name, body := q[..n], q[n + 1..];
      var value := ReadValue(kind, body);
      if value.Failed? { return Failed; }
      if value.Panicked? { return Panicked; }
      var field := Field(name, value.value.0);
      p := body[value.value.1..];
      FrontSnoc(out, field, Elements(p));
      out := out + [field];
    }
    FrontSnoc(out, Field([], Null), Done([]));
    return Done(out);
  }

  method ReadValue(kind: byte, buf: seq<byte>) returns (r: Outcome<(Value, nat)>)
    ensures r == DecodeValue(kind, buf)
    decreases |buf|, 1
  {
    hide I32, I64, ValuesOf;
    match kind {
      case 0x01 =>
        if |buf| < 8 { return Done((Unknown, 0)); }
        return Done((Double(buf[..8]), 8));
      case 0x02 =>
        if |buf| < 4 { return Done((Unknown, 0)); }
        var len := I32(buf[0..4]);
        if -4 <= len <= 0 { return Panicked; }
        if len < 0 || |buf| < 4 + len { return Done((Unknown, |buf|)); }
        return Done((Str(buf[4..4 + len - 1]), 4 + len));
      case 0x05 =>
        if |buf| < 5 { return Done((Unknown, 0)); }
        var len := I32(buf[0..4]);
        if -5 <= len < 0 { return Panicked; }
        if len < 0 || |buf| < 5 + len { return Done((Unknown, |buf|)); }
        return Done((Binary(buf[5..5 + len]), 5 + len));
      case 0x07 =>
        if |buf| < 12 { return Done((Unknown, 0)); }
        return Done((ObjectId(buf[..12]), 12));
      case 0x08 =>
        if buf == [] { return Done((Unknown, 0)); }
        return Done((Boolean(buf[0] != 0), 1));
      case 0x0A => return Done((Null, 0));
      case 0x10 =>
        if |buf| < 4 { return Done((Unknown, 0)); }
        return Done((Int32(I32(buf[0..4])), 4));
      case 0x12 =>
        if |buf| < 8 { return Done((Unknown, 0)); }
        return Done((Int64(I64(buf[0..8])), 8));
      case _ =>
    }
    if kind != 0x03 && kind != 0x04 { return Done((Unknown, |buf|)); }
    if |buf| < 4 { return Done((Unknown, 0)); }
    var len := I32(buf[0..4]);
    if len < 0 || |buf| < len { return Done((Unknown, |buf|)); }
    var doc := ReadDoc(buf[..len]);
    if doc.Panicked? { return Panicked; }
    var fields := if doc.Failed? then [] else doc.value;
    return Done((if kind == 0x04 then Array(ValuesOf(fields)) else Document(fields), len));
  }

  function InFront(out: seq<Field>, r: Outcome<seq<Field>>): Outcome<seq<Field>> {
    if r.Done? then Done(out + r.value) else r
  }

  lemma PanicStays(out: seq<Field>)
    ensures InFront(out, Failed) == Failed && InFront(out, Panicked) == Panicked
  {
  }

  /** One turn of the element loop. */
  lemma ElementsStep(p: seq<byte>)
    requires p != [] && p[0] != 0
    ensures var q := p[1..]; var n := NulAt(q);
      Elements(p) ==
        if n == |q| then Panicked
        else match DecodeValue(p[0], q[n + 1..])
          case Failed => Failed
          case Panicked => Panicked
          case Done((value, consumed)) => InFront([Field(q[..n], value)], Elements(q[n + 1..][consumed..]))
  {
    hide DecodeValue, NulAt;
  }

  lemma FrontSnoc(out: seq<Field>, f: Field, r: Outcome<seq<Field>>)
    ensures InFront(out, InFront([f], r)) == InFront(out + [f], r)
    ensures InFront([], r) == r && InFront(out, Done([])) == Done(out)
  {
    assert r.Done? ==> out + ([f] + r.value) == (out + [f]) + r.value;
    assert r.Done? ==> [] + r.value == r.value;
    assert out + [] == out;
  }

  // ----- encoding -----

  function EncodeString(s: seq<byte>): (r: seq<byte>)
    ensures |r| == |s| + 5 && r[4..4 + |s|] == s && r[4 + |s|] == 0
  {
    ToLE(|s| + 1, 4) + s + [0]
  }

  function EncodeCString(s: seq<byte>): seq<byte> {
    s + [0]
  }

  /** `bson_build_doc` on the concatenated elements. */
  function BuildDoc(elements: seq<byte>): seq<byte> {
    ToLE(|elements| + 5, 4) + (elements + [0])
  }

  /**
   Documents as they are sent. An array's elements have names, a binary value has a subtype and a boolean
   may be any byte; the decoder keeps none of these.
   */
  datatype WireField = WireField(name: Name, value: Wire)

  datatype Wire =
    | WDouble(bits: seq<byte>)
    | WStr(text: seq<byte>)
    | WDocument(fields: seq<WireField>)
    | WArray(elements: seq<WireField>)
    | WBoolean(flag: byte)
    | WNull
    | WInt32(i: int)
    | WInt64(l: int)
    | WObjectId(id: seq<byte>)
    | WBinary(subtype: byte, data: seq<byte>)

  function Kind(w: Wire): byte {
    match w
    case WDouble(_) => 0x01
    case WStr(_) => 0x02
    case WDocument(_) => 0x03
    case WArray(_) => 0x04
    case WBinary(_, _) => 0x05
    case WObjectId(_) => 0x07
    case WBoolean(_) => 0x08
    case WNull => 0x0A
    case WInt32(_) => 0x10
    case WInt64(_) => 0x12
  }

  /** The payload of an element. The last five cases are laid out as the BSON specification says. */
  function EncodeValue(w: Wire): seq<byte>
    decreases w, 0
  {
    match w
    case WInt32(i) => ToLE(i % TWO32, 4)
    case WInt64(l) => ToLE(l % TWO64, 8)
    case WStr(text) => EncodeString(text)
    case WDocument(fields) => BuildDoc(EncodeFields(fields))
    case WArray(elements) => BuildDoc(EncodeFields(elements))
    case WDouble(bits) => bits
    case WBoolean(flag) => [flag]
    case WNull => []
    case WObjectId(id) => id
    case WBinary(subtype, data) => ToLE(|data|, 4) + [subtype] + data
  }

  function EncodeElement(f: WireField): seq<byte>
    decreases f, 1
  {
    [Kind(f.value)] + (EncodeCString(f.name) + EncodeValue(f.value))
  }

  function EncodeFields(fields: seq<WireField>): seq<byte>
    decreases fields
  {
    if fields == [] then [] else EncodeElement(fields[0]) + EncodeFields(fields[1..])
  }

  /** What the decoder is to make of a value. */
  function View(w: Wire): Value
    decreases w
  {
    match w
    case WInt32(i) => Int32(i)
    case WInt64(l) => Int64(l)
    case WStr(text) => Str(text)
    case WDocument(fields) => Document(ViewFields(fields))
    case WArray(elements) => Array(ValuesOf(ViewFields(elements)))
    case WDouble(bits) => Double(bits)
    case WBoolean(flag) => Boolean(flag != 0)
    case WNull => Null
    case WObjectId(id) => ObjectId(id)
    case WBinary(_, data) => Binary(data)
  }

  function ViewFields(fields: seq<WireField>): seq<Field>
    decreases fields
  {
    if fields == [] then [] else [Field(fields[0].name, View(fields[0].value))] + ViewFields(fields[1..])
  }

  /** Values the format can carry. */
  predicate Fits(w: Wire)
    decreases w
  {
    && |EncodeValue(w)| < TWO31
    && match w
       case WInt32(i) => -TWO31 <= i < TWO31
       case WInt64(l) => -TWO63 <= l < TWO63
       case WStr(text) => true
       case WDocument(fields) => forall f :: f in fields ==> NulFree(f.name) && Fits(f.value)
       case WArray(elements) => forall f :: f in elements ==> NulFree(f.name) && Fits(f.value)
       case WDouble(bits) => |bits| == 8
       case WBoolean(_) => true
       case WNull => true
       case WObjectId(id) => |id| == 12
       case WBinary(_, _) => true
  }

  // ----- round trip -----

  lemma Signed32(v: int)
    requires -TWO31 <= v < TWO31
    ensures I32(ToLE(v % TWO32, 4)) == v
  {
    Pow256Values();
    FromLEToLE(v % TWO32, 4);
  }

  lemma Signed64(v: int)
    requires -TWO63 <= v < TWO63
    ensures I64(ToLE(v % TWO64, 8)) == v
  {
    Pow256Values();
    FromLEToLE(v % TWO64, 8);
  }

  lemma Length32(n: nat)
    requires n < TWO31
    ensures I32(ToLE(n, 4)) == n
  {
    Pow256Values();
    FromLEToLE(n, 4);
  }

  lemma DocDataOfBuilt(elements: seq<byte>, rest: seq<byte>)
    requires |elements| + 5 < TWO31
    ensures DocData(BuildDoc(elements) + rest) == Done(elements + [0])
    ensures var buf := BuildDoc(elements) + rest;
      && |buf| >= 4 && I32(buf[0..4]) == |elements| + 5 == |BuildDoc(elements)|
      && buf[..|elements| + 5] == BuildDoc(elements)
  {
    Length32(|elements| + 5);
    var buf := BuildDoc(elements) + rest;
    assert buf[0..4] == ToLE(|elements| + 5, 4);
    assert buf[4..|elements| + 5] == elements + [0];
  }

  /** One element at the front of a list of elements is read as its name and value. */
  lemma ElementRead(f: WireField, more: seq<byte>, fields: seq<Field>)
    requires NulFree(f.name)
    requires DecodeValue(Kind(f.value), EncodeValue(f.value) + more) == Done((View(f.value), |EncodeValue(f.value)|))
    requires Elements(more) == Done(fields)
    ensures Elements(EncodeElement(f) + more) == Done([Field(f.name, View(f.value))] + fields)
  {
    hide DecodeValue, EncodeValue, Kind, View, Elements, NulAt;
    KindIsNotZero(f.value);
    var body := EncodeValue(f.value) + more;
    var p := EncodeElement(f) + more;
    var q := p[1..];
    assert p[0] == Kind(f.value);
    assert q == f.name + [0] + body;
    NulFound(f.name, body);
    assert q[..|f.name|] == f.name && q[|f.name| + 1..] == body;
    assert body[|EncodeValue(f.value)|..] == more;
    ElementsStep(p);
  }

  lemma KindIsNotZero(w: Wire)
    ensures Kind(w) != 0
  {
  }

  lemma EndOfElements()
    ensures Elements([0]) == Done([])
  {
  }

  /** Elements in front of anything are read, and then what follows. */
  lemma {:induction false} FieldsThen(fields: seq<WireField>, more: seq<byte>, rest: seq<Field>)
    requires forall f :: f in fields ==> NulFree(f.name) && Fits(f.value)
    requires Elements(more) == Done(rest)
    ensures Elements(EncodeFields(fields) + more) == Done(ViewFields(fields) + rest)
    decreases fields, 0
  {
    hide Elements, Fits, EncodeElement, NulFree, View, EncodeFields, ViewFields, EncodeValue, DecodeValue, Kind;
    FieldsStep(fields);
    if fields == [] {
      assert [] + more == more && [] + rest == rest;
    } else {
      var f, after := fields[0], EncodeFields(fields[1..]) + more;
      assert f in fields;
      FieldsThen(fields[1..], more, rest);
      ValueRoundTrip(f.value, after);
      ElementRead(f, after, ViewFields(fields[1..]) + rest);
      assert (EncodeElement(f) + EncodeFields(fields[1..])) + more == EncodeElement(f) + after;
      assert [Field(f.name, View(f.value))] + (ViewFields(fields[1..]) + rest)
          == ([Field(f.name, View(f.value))] + ViewFields(fields[1..])) + rest;
    }
  }

  lemma FieldsStep(fields: seq<WireField>)
    ensures fields == [] ==> EncodeFields(fields) == [] && ViewFields(fields) == []
    ensures fields != [] ==> EncodeFields(fields) == EncodeElement(fields[0]) + EncodeFields(fields[1..])
    ensures fields != [] ==>
      ViewFields(fields) == [Field(fields[0].name, View(fields[0].value))] + ViewFields(fields[1..])
  {
    hide EncodeElement, View;
  }

  lemma {:induction false} FieldsRoundTrip(fields: seq<WireField>)
    requires forall f :: f in fields ==> NulFree(f.name) && Fits(f.value)
    ensures Elements(EncodeFields(fields) + [0]) == Done(ViewFields(fields))
    decreases fields, 1
  {
    hide Elements, EncodeFields, Fits, NulFree;
    EndOfElements();
    FieldsThen(fields, [0], []);
    assert ViewFields(fields) + [] == ViewFields(fields);
  }

  /**
   An element of a kind the decoder does not know, a date for one, is kept by name without its value, and
   ends the document: what comes before it is read, and nothing after it is.
   */
  lemma UnknownKindEnds(fields: seq<WireField>, kind: byte, name: Name, rest: seq<byte>)
    requires forall f :: f in fields ==> NulFree(f.name) && Fits(f.value)
    requires NulFree(name) && kind !in {0, 1, 2, 3, 4, 5, 7, 8, 10, 16, 18}
    ensures Elements(EncodeFields(fields) + ([kind] + (name + [0] + rest))) ==
            Done(ViewFields(fields) + [Field(name, Unknown)])
  {
    hide Elements, EncodeFields, Fits, NulFree;
    UnknownElement(kind, name, rest);
    FieldsThen(fields, [kind] + (name + [0] + rest), [Field(name, Unknown)]);
  }

  lemma UnknownElement(kind: byte, name: Name, rest: seq<byte>)
    requires NulFree(name) && kind !in {0, 1, 2, 3, 4, 5, 7, 8, 10, 16, 18}
    ensures Elements([kind] + (name + [0] + rest)) == Done([Field(name, Unknown)])
  {
    hide NulFree, NulAt;
    var p := [kind] + (name + [0] + rest);
    var q := p[1..];
    assert q == name + [0] + rest;
    NulFound(name, rest);
    assert q[..|name|] == name && q[|name| + 1..] == rest;
    assert DecodeValue(kind, rest) == Done((Unknown, |rest|));
    ElementsStep(p);
    assert rest[|rest|..] == [] && Elements([]) == Done([]);
    assert [Field(name, Unknown)] + [] == [Field(name, Unknown)];
  }

  /** Every value is read back whatever follows it, and exactly its bytes are consumed. */
  lemma {:induction false} ValueRoundTrip(w: Wire, rest: seq<byte>)
    requires Fits(w)
    ensures DecodeValue(Kind(w), EncodeValue(w) + rest) == Done((View(w), |EncodeValue(w)|))
    decreases w
  {
    hide Elements, DecodeNested, NulFree, BuildDoc, DocData, I32, I64, ToLE, NulAt;
    match w
    case WDocument(fields) =>
      FieldsRoundTrip(fields);
      NestedRoundTrip(EncodeFields(fields), rest, ViewFields(fields));
    case WArray(elements) =>
      FieldsRoundTrip(elements);
      NestedRoundTrip(EncodeFields(elements), rest, ViewFields(elements));
    case _ => ScalarRoundTrip(w, rest);
  }

  lemma ScalarRoundTrip(w: Wire, rest: seq<byte>)
    requires Fits(w) && !w.WDocument? && !w.WArray?
    ensures DecodeValue(Kind(w), EncodeValue(w) + rest) == Done((View(w), |EncodeValue(w)|))
  {
    hide DecodeNested, NulFree, I32, I64, ToLE;
    var e := EncodeValue(w);
    var buf := e + rest;
    match w
    case WInt32(i) =>
      Signed32(i);
      assert buf[0..4] == e;
    case WInt64(l) =>
      Signed64(l);
      assert buf[0..8] == e;
    case WStr(text) =>
      Length32(|text| + 1);
      assert buf[0..4] == ToLE(|text| + 1, 4) && buf[4..4 + |text|] == text;
    case WDouble(bits) => assert buf[..8] == bits;
    case WBoolean(flag) => assert buf[0] == e[0];
    case WNull =>
    case WObjectId(id) => assert buf[..12] == id;
    case WBinary(_, data) =>
      Length32(|data|);
      assert buf[0..4] == ToLE(|data|, 4) && buf[5..5 + |data|] == data;
  }

  lemma NestedRoundTrip(elements: seq<byte>, rest: seq<byte>, fields: seq<Field>)
    requires |BuildDoc(elements)| < TWO31 && Elements(elements + [0]) == Done(fields)
    ensures DecodeNested(BuildDoc(elements) + rest, false) == Done((Document(fields), |BuildDoc(elements)|))
    ensures DecodeNested(BuildDoc(elements) + rest, true) == Done((Array(ValuesOf(fields)), |BuildDoc(elements)|))
  {
    DocDataOfBuilt(elements, rest);
    DocDataOfBuilt(elements, []);
    assert BuildDoc(elements) + [] == BuildDoc(elements);
    hide Elements, DocData, BuildDoc, I32, ValuesOf;
  }

  /** A built document followed by any bytes decodes to its fields: order kept, array keys dropped. */
  lemma DocumentRoundTrip(fields: seq<WireField>, trailing: seq<byte>)
    requires Fits(WDocument(fields))
    ensures DecodeDoc(BuildDoc(EncodeFields(fields)) + trailing) == Done(ViewFields(fields))
  {
    FieldsRoundTrip(fields);
    DocDataOfBuilt(EncodeFields(fields), trailing);
    hide Elements, DocData, BuildDoc;
  }

  // ----- what names do not matter -----

  /** An array is its values in order: the names of its elements play no part. */
  lemma {:induction false} ArrayIgnoresNames(elements: seq<WireField>)
    ensures var vs := ValuesOf(ViewFields(elements));
      |vs| == |elements| && forall i :: 0 <= i < |vs| ==> vs[i] == View(elements[i].value)
  {
    if elements != [] {
      ArrayIgnoresNames(elements[1..]);
      assert ViewFields(elements)[1..] == ViewFields(elements[1..]);
    }
  }

  // ----- declared lengths -----

  lemma LengthAhead(v: int, x: seq<byte>)
    requires -TWO31 <= v < TWO31
    ensures var buf := ToLE(v % TWO32, 4) + x;
      |buf| == 4 + |x| && I32(buf[0..4]) == v && buf[4..] == x
  {
    hide ToLE, I32;
    Signed32(v);
    var buf := ToLE(v % TWO32, 4) + x;
    assert buf[0..4] == ToLE(v % TWO32, 4);
  }

  /** A string that claims more bytes than there are is Unknown and takes them all; one that claims none is a panic. */
  lemma StringLength(v: int, x: seq<byte>)
    requires -TWO31 <= v < TWO31
    ensures DecodeValue(0x02, ToLE(v % TWO32, 4) + x) ==
      if v < -4 || v > |x| then Done((Unknown, 4 + |x|))
      else if v <= 0 then Panicked
      else Done((Str(x[..v - 1]), 4 + v))
  {
    hide ToLE, I32;
    LengthAhead(v, x);
    var buf := ToLE(v % TWO32, 4) + x;
    if 0 < v <= |x| { assert buf[4..4 + v - 1] == x[..v - 1]; }
  }

  /** The same for binary data, whose length does not count the subtype. */
  lemma BinaryLength(v: int, subtype: byte, x: seq<byte>)
    requires -TWO31 <= v < TWO31
    ensures DecodeValue(0x05, ToLE(v % TWO32, 4) + ([subtype] + x)) ==
      if v < -5 || v > |x| then Done((Unknown, 5 + |x|))
      else if v < 0 then Panicked
      else Done((Binary(x[..v]), 5 + v))
  {
    hide ToLE, I32;
    LengthAhead(v, [subtype] + x);
    var buf := ToLE(v % TWO32, 4) + ([subtype] + x);
    if 0 <= v <= |x| { assert buf[5..5 + v] == x[..v]; }
  }

  /** A document that claims fewer bytes than its frame is kept as an empty one; one that claims too many is Unknown. */
  lemma NestedLength(v: int, x: seq<byte>, array_: bool)
    requires -TWO31 <= v < TWO31
    ensures var r := DecodeNested(ToLE(v % TWO32, 4) + x, array_);
      && (v < 0 || v > 4 + |x| ==> r == Done((Unknown, 4 + |x|)))
      && (0 <= v <= 4 ==> r == Done((if array_ then Array([]) else Document([]), v)))
  {
    hide ToLE, I32, Elements;
    LengthAhead(v, x);
  }

  /** Too few bytes for a length, or for a value of fixed size, are Unknown and take nothing. */
  lemma TooShort(kind: byte, buf: seq<byte>)
    requires kind in {0x01, 0x02, 0x03, 0x04, 0x05, 0x07, 0x08, 0x10, 0x12}
    requires |buf| < match kind
      case 0x01 => 8
      case 0x05 => 5
      case 0x07 => 12
      case 0x08 => 1
      case 0x12 => 8
      case _ => 4
    ensures DecodeValue(kind, buf) == Done((Unknown, 0))
  {
  }

  /** The outermost document is cut at its declared length, and is the whole buffer when that lies past the end. */
  lemma DocumentLength(v: int, x: seq<byte>)
    requires -TWO31 <= v < TWO31 && x != []
    ensures DocData(ToLE(v % TWO32, 4) + x) ==
      if 0 <= v < 4 then Panicked else Done(if 4 <= v <= 4 + |x| then x[..v - 4] else x)
  {
    hide ToLE, I32;
    LengthAhead(v, x);
    var buf := ToLE(v % TWO32, 4) + x;
    if 4 <= v <= 4 + |x| { assert buf[4..v] == x[..v - 4]; }
    assert buf[4..|buf|] == x;
  }
}
