/** One change row of SQL Server's CDC functions as a change event: `map_cdc_operation`. */
module Cdc {
  import opened Bytes
  import opened Wrappers
  import opened Connector

  predicate IsBlank(b: byte) {
    b == 32 || 9 <= b <= 13
  }

  function Trim(s: seq<byte>): seq<byte> {
    if s != [] && IsBlank(s[0]) then Trim(s[1..])
    else if s != [] && IsBlank(s[|s| - 1]) then Trim(s[..|s| - 1])
    else s
  }

  function Digits(s: seq<byte>): Result<nat> {
    if s == [] then Ok(0) else
    match Digits(s[..|s| - 1])
    case Ok(n) => if 48 <= s[|s| - 1] <= 57 then Ok(10 * n + s[|s| - 1] - 48) else Err
    case Err => Err
  }

  /** Decimal text as a 64-bit integer; anything else is refused. */
  function ParseInt(s: seq<byte>): Result<int> {
    var signed := s != [] && (s[0] == 43 || s[0] == 45);
    var digits := if signed then s[1..] else s;
    if digits == [] then Err else
    match Digits(digits)
    case Err => Err
    case Ok(n) =>
      var v := (if signed && s[0] == 45 then -1 else 1) * n;
      if -TWO63 <= v < TWO63 then Ok(v) else Err
  }

  const DELETE: int := 1
  const INSERT: int := 2
  const UPDATE_AFTER: int := 4

  function Operation(cells: Row): Result<int> {
    if |cells| < 4 || cells[2].None? then Err else ParseInt(Trim(cells[2].value))
  }

  function EventKey(table: TableSchema, row: Row): Row {
    var n := if |row| < |table.columns| then |row| else |table.columns|;
    seq(n, i requires 0 <= i < n =>
      if table.columns[i].name in table.PrimaryKeyColumns() then row[i] else None)
  }

  /** Four metadata cells, then the captured columns. `Ok(None)` is a change that is not forwarded. */
  function MapCdcOperation(cells: Row, table: TableSchema): Result<Option<ChangeEvent>> {
    match Operation(cells)
    case Err => Err
    case Ok(op) =>
      var row := cells[4..];
      var key := EventKey(table, row);
      Ok(if op == INSERT then Some(Insert(table.name, row))
         else if op == UPDATE_AFTER then Some(Update(table.name, key, row))
         else if op == DELETE then Some(Delete(table.name, key))
         else None)
  }

  /** With a primary key, the event's key is the row's key. */
  lemma EventKeyIsKeyOf(table: TableSchema, row: Row)
    requires Keyed(table) && |row| == |table.columns|
    ensures EventKey(table, row) == KeyOf(table, row)
  {
    forall i | 0 <= i < |row|
      ensures EventKey(table, row)[i] == KeyOf(table, row)[i]
    {
      KeyNamesOfKeyed(table, i);
    }
  }

  // ----- the operation codes, from the text -----

  predicate Blanks(s: seq<byte>) {
    forall i :: 0 <= i < |s| ==> s[i] == 32 || 9 <= s[i] <= 13
  }

  predicate DecimalDigits(s: seq<byte>) {
    s != [] && forall i :: 0 <= i < |s| ==> 48 <= s[i] <= 57
  }

  function PowerOfTen(n: nat): nat {
    if n == 0 then 1 else 10 * PowerOfTen(n - 1)
  }

  /** The number that digits stand for, each by its place. */
  function PlaceValue(s: seq<byte>): int {
    if s == [] then 0 else (s[0] - 48) * PowerOfTen(|s| - 1) + PlaceValue(s[1..])
  }

  lemma {:induction false} PlaceValueSnoc(s: seq<byte>, d: byte)
    ensures PlaceValue(s + [d]) == 10 * PlaceValue(s) + (d - 48)
  {
    if s == [] {
      assert s + [d] == [d] && [d][1..] == [];
    } else {
      assert (s + [d])[1..] == s[1..] + [d];
      PlaceValueSnoc(s[1..], d);
      var lead: int, p := s[0], PowerOfTen(|s| - 1);
      assert (lead - 48) * (10 * p) == 10 * ((lead - 48) * p);
    }
  }

  lemma {:induction false} DigitsRead(s: seq<byte>)
    requires forall i :: 0 <= i < |s| ==> 48 <= s[i] <= 57
    ensures Digits(s) == Ok(PlaceValue(s)) && PlaceValue(s) >= 0
  {
    if s != [] {
      var n := |s| - 1;
      DigitsRead(s[..n]);
      PlaceValueSnoc(s[..n], s[n]);
      assert s == s[..n] + [s[n]];
    }
  }

  lemma {:induction false} TrimmedTo(before: seq<byte>, text: seq<byte>, after: seq<byte>)
    requires Blanks(before) && Blanks(after) && text != [] && !Blanks(text[..1]) && !Blanks(text[|text| - 1..])
    ensures Trim(before + text + after) == text
    decreases |before| + |after|
  {
    var s := before + text + after;
    assert text[..1] == [text[0]] && text[|text| - 1..] == [text[|text| - 1]];
    if before != [] {
      assert s[1..] == before[1..] + text + after;
      TrimmedTo(before[1..], text, after);
    } else if after != [] {
      var rest := after[..|after| - 1];
      assert s[..|s| - 1] == before + text + rest && s[|s| - 1] == after[|after| - 1] && s[0] == text[0];
      TrimmedTo(before, text, rest);
    } else {
      assert s == text;
    }
  }

  /** Blanks around decimal digits, with or without a sign: the number they stand for, if it has 64 bits. */
  lemma OperationText(before: seq<byte>, sign: seq<byte>, digits: seq<byte>, after: seq<byte>)
    requires Blanks(before) && Blanks(after) && DecimalDigits(digits) && (sign == [] || sign == [43] || sign == [45])
    ensures var v := if sign == [45] then -PlaceValue(digits) else PlaceValue(digits);
      ParseInt(Trim(before + (sign + digits) + after)) == if -TWO63 <= v < TWO63 then Ok(v) else Err
  {
    hide Trim, ParseInt, Digits, PlaceValue;
    SignedTrimmed(before, sign, digits, after);
    SignedRead(sign, digits);
  }

  lemma SignedTrimmed(before: seq<byte>, sign: seq<byte>, digits: seq<byte>, after: seq<byte>)
    requires Blanks(before) && Blanks(after) && DecimalDigits(digits) && (sign == [] || sign == [43] || sign == [45])
    ensures Trim(before + (sign + digits) + after) == sign + digits
  {
    hide Trim;
    var text := sign + digits;
    assert text[..1] == [if sign == [] then digits[0] else sign[0]];
    assert text[|text| - 1..] == [digits[|digits| - 1]];
    assert !Blanks(text[..1]) by { assert text[..1][0] == text[0]; }
    assert !Blanks(text[|text| - 1..]) by { assert text[|text| - 1..][0] == digits[|digits| - 1]; }
    TrimmedTo(before, text, after);
  }

  lemma SignedRead(sign: seq<byte>, digits: seq<byte>)
    requires DecimalDigits(digits) && (sign == [] || sign == [43] || sign == [45])
    ensures var v := if sign == [45] then -PlaceValue(digits) else PlaceValue(digits);
      ParseInt(sign + digits) == if -TWO63 <= v < TWO63 then Ok(v) else Err
  {
    DigitsRead(digits);
    hide Digits, PlaceValue;
    var text := sign + digits;
    assert sign == [] ==> text == digits;
    assert sign != [] ==> text[1..] == digits && text[0] == sign[0];
  }

  lemma {:induction false} DigitsRefused(s: seq<byte>, i: nat)
    requires i < |s| && !(48 <= s[i] <= 57)
    ensures Digits(s) == Err
  {
    if i < |s| - 1 { DigitsRefused(s[..|s| - 1], i); }
  }

  /** Text with a character that is neither a digit nor a sign in front is refused. */
  lemma OtherTextRefused(s: seq<byte>, i: nat)
    requires i < |s| && !(48 <= s[i] <= 57) && !(i == 0 && (s[0] == 43 || s[0] == 45))
    ensures ParseInt(s) == Err
  {
    hide Digits;
    DigitsRefused(s, i);
    if i > 0 { DigitsRefused(s[1..], i - 1); }
  }

  /** So is text without a digit. */
  lemma NoDigitsRefused()
    ensures ParseInt([]) == ParseInt([43]) == ParseInt([45]) == Err
  {
    assert [43][1..] == [] && [45][1..] == [];
  }

  /**
   What each operation code becomes: 1 the deletion of the row's key, 2 the insertion of the row, 4 the
   update of that key to the row, and any other number, 3 among them, nothing.
   */
  lemma EventOfCode(table: TableSchema, row: Row, meta: Row, before: seq<byte>, digits: seq<byte>, after: seq<byte>)
    requires Keyed(table) && FitsTable(table, row) && |meta| == 4
    requires Blanks(before) && Blanks(after) && DecimalDigits(digits) && PlaceValue(digits) < TWO63
    requires meta[2] == Some(before + digits + after)
    ensures MapCdcOperation(meta + row, table) == Ok(
      match PlaceValue(digits)
      case 1 => Some(Delete(table.name, KeyOf(table, row)))
      case 2 => Some(Insert(table.name, row))
      case 4 => Some(Update(table.name, KeyOf(table, row), row))
      case _ => None)
  {
    hide KeyOf, EventKey, ParseInt, Trim, PlaceValue, Keyed;
    OperationText(before, [], digits, after);
    DigitsRead(digits);
    assert [] + digits == digits;
    assert (meta + row)[4..] == row && (meta + row)[2] == meta[2];
    EventKeyIsKeyOf(table, row);
  }

  /** The four codes as they are sent. */
  lemma EventOfDigit(table: TableSchema, row: Row, meta: Row, d: byte)
    requires Keyed(table) && FitsTable(table, row) && |meta| == 4 && 48 <= d <= 57 && meta[2] == Some([d])
    ensures MapCdcOperation(meta + row, table) == Ok(
      if d == 49 then Some(Delete(table.name, KeyOf(table, row)))
      else if d == 50 then Some(Insert(table.name, row))
      else if d == 52 then Some(Update(table.name, KeyOf(table, row), row))
      else None)
  {
    assert [d][1..] == [] && PlaceValue([d]) == d - 48;
    hide MapCdcOperation, PlaceValue, KeyOf;
    assert [] + [d] + [] == [d];
    EventOfCode(table, row, meta, [], [d], []);
  }

  /** A change row without its metadata, or whose operation is NULL, is an error. */
  lemma NoOperation(table: TableSchema, cells: Row)
    requires |cells| < 4 || cells[2] == None
    ensures MapCdcOperation(cells, table) == Err
  {
  }
}
