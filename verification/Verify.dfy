/**
 The verification gate: the byte encoding a row is hashed over, the comparison of per-row checksums,
 and the engine's verify and cutover phases. The hash itself is a parameter.
 */
module Verify {
  import opened Arith
  import opened Bytes
  import opened Wrappers
  import opened Connector

  function CellBytes(cell: Cell): seq<byte> {
    match cell
    case None => [0]
    case Some(b) => [1] + ToBE(|b|, 4) + b
  }

  /** The encoding: a marker byte, then a 32-bit length (kept modulo 2^32) and the bytes. */
  function RowBytes(row: Row): seq<byte> {
    if row == [] then [] else CellBytes(row[0]) + RowBytes(row[1..])
  }

  lemma {:induction false} RowBytesSnoc(row: Row, cell: Cell)
    ensures RowBytes(row + [cell]) == RowBytes(row) + CellBytes(cell)
  {
    hide CellBytes;
    if row == [] {
      assert row + [cell] == [cell] && [cell][1..] == [];
    } else {
      RowBytesSnoc(row[1..], cell);
      assert (row + [cell])[1..] == row[1..] + [cell];
    }
  }

  /** The loop that fills the buffer to be hashed. */
  method RowBuffer(row: Row) returns (buf: seq<byte>)
    ensures buf == RowBytes(row)
  {
    hide RowBytes, ToBE;
    buf := [];
    assert RowBytes(row[..0]) == [] by { NoBytes(); }
    for i := 0 to |row|
      invariant buf == RowBytes(row[..i])
    {
      RowBytesSnoc(row[..i], row[i]);
      assert row[..i + 1] == row[..i] + [row[i]];
      match row[i] {
        case None => buf := buf + [0];
        case Some(b) =>
          assert buf + [1] + ToBE(|b|, 4) + b == buf + CellBytes(row[i]);
          buf := buf + [1];
          buf := buf + ToBE(|b|, 4);
          buf := buf + b;
      }
    }
    assert row[..|row|] == row;
  }

  lemma NoBytes()
    ensures RowBytes([]) == []
  {
  }

  predicate Encodable(row: Row) {
    forall i :: 0 <= i < |row| && row[i].Some? ==> |row[i].value| < TWO32
  }

  lemma CellPrefixFree(c: Cell, x: seq<byte>, d: Cell, y: seq<byte>)
    requires c.Some? ==> |c.value| < TWO32
    requires d.Some? ==> |d.value| < TWO32
    requires CellBytes(c) + x == CellBytes(d) + y
    ensures c == d && x == y
  {
    var s, t := CellBytes(c) + x, CellBytes(d) + y;
    assert s[0] == CellBytes(c)[0] && t[0] == CellBytes(d)[0];
    if c.Some? {
      Pow256Values();
      FromBEToBE(|c.value|, 4);
      FromBEToBE(|d.value|, 4);
      assert s[1..5] == ToBE(|c.value|, 4) && t[1..5] == ToBE(|d.value|, 4);
      var n := 5 + |c.value|;
      assert s[5..n] == c.value && t[5..n] == d.value && s[n..] == x && t[n..] == y;
    } else {
      assert s[1..] == x && t[1..] == y;
    }
  }

  /** Rows of any widths with cells below 2^32 bytes have different encodings unless they are equal. */
  lemma {:induction false} EncodingIsUnique(a: Row, b: Row)
    requires Encodable(a) && Encodable(b) && RowBytes(a) == RowBytes(b)
    ensures a == b
  {
    if a == [] || b == [] {
      assert a == [] && b == [];
    } else {
      CellPrefixFree(a[0], RowBytes(a[1..]), b[0], RowBytes(b[1..]));
      EncodingIsUnique(a[1..], b[1..]);
    }
  }

  lemma {:induction false} SameLowBytes(n: nat, m: nat, k: nat)
    requires n % Pow256(k) == m % Pow256(k)
    ensures ToBE(n, k) == ToBE(m, k)
  {
    if k > 0 {
      var p := Pow256(k - 1);
      LowDigit(n, p);
      LowDigit(m, p);
      SameLowBytes(n / 256, m / 256, k - 1);
    }
  }

  lemma LowDigit(n: nat, p: nat)
    requires p > 0
    ensures n % 256 == (n % (256 * p)) % 256 && n / 256 % p == (n % (256 * p)) / 256
  {
    var q, r := n / (256 * p), n % (256 * p);
    assert n == 256 * (p * q) + r;
    assert n / 256 == p * q + r / 256;
    assert r / 256 < p;
    DivUnique(n / 256, p, q, r / 256);
  }

  lemma {:induction false} RowBytesConcat(a: Row, b: Row)
    ensures RowBytes(a + b) == RowBytes(a) + RowBytes(b)
  {
    hide CellBytes;
    if b == [] {
      assert a + b == a;
    } else {
      var n := |b| - 1;
      RowBytesConcat(a, b[..n]);
      RowBytesSnoc(a + b[..n], b[n]);
      RowBytesSnoc(b[..n], b[n]);
      assert a + b == (a + b[..n]) + [b[n]] && b == b[..n] + [b[n]];
    }
  }

  lemma PairBytes(c: Cell, d: Cell)
    ensures RowBytes([c, d]) == CellBytes(c) + CellBytes(d)
  {
    RowBytesSnoc([], c);
    RowBytesSnoc([c], d);
    assert [] + [c] == [c] && [c] + [d] == [c, d] && [] + CellBytes(c) == CellBytes(c);
  }

  /** The encoding of the empty value, as five bytes of a value. */
  const EMPTY: seq<byte> := [1, 0, 0, 0, 0]

  /** Two cells of one width whose lengths wrap: an empty value slides over the boundary between them. */
  lemma WrappedPair(z: seq<byte>)
    requires |z| == TWO32 - 5
    ensures var a: Row, b: Row := [Some(EMPTY + z), Some([])], [Some([]), Some(z + EMPTY)];
      a != b && RowBytes(a) == RowBytes(b)
  {
    var none: seq<byte> := [];
    var a: Row, b: Row := [Some(EMPTY + z), Some(none)], [Some(none), Some(z + EMPTY)];
    Pow256Values();
    SameLowBytes(TWO32, 0, 4);
    assert ToBE(0, 4) == [0, 0, 0, 0];
    assert CellBytes(Some(none)) == EMPTY;
    assert CellBytes(Some(EMPTY + z)) == EMPTY + (EMPTY + z);
    assert CellBytes(Some(z + EMPTY)) == EMPTY + (z + EMPTY);
    hide CellBytes, ToBE, RowBytes;
    PairBytes(a[0], a[1]);
    PairBytes(b[0], b[1]);
    assert EMPTY + (EMPTY + z) + EMPTY == EMPTY + (EMPTY + (z + EMPTY));
    assert |EMPTY + z| != |none|;
  }

  predicate CellsBelow(row: Row, n: nat) {
    forall i :: 0 <= i < |row| && row[i].Some? ==> |row[i].value| < n
  }

  /** Rows of `width` cells below `n` bytes have different encodings unless they are equal. */
  ghost predicate InjectiveBelow(width: nat, n: nat) {
    forall a: Row, b: Row ::
      |a| == |b| == width && CellsBelow(a, n) && CellsBelow(b, n) && RowBytes(a) == RowBytes(b) ==> a == b
  }

  lemma NarrowRows(a: Row, b: Row)
    requires |a| == |b| <= 1 && RowBytes(a) == RowBytes(b)
    ensures a == b
  {
    if |a| == 1 {
      assert a == [a[0]] && b == [b[0]] && a[1..] == [] && b[1..] == [];
      var s, t := CellBytes(a[0]), CellBytes(b[0]);
      assert s + [] == s && t + [] == t;
      assert s == t && s[0] == t[0];
      assert a[0].Some? ==> s[5..] == a[0].value && t[5..] == b[0].value;
    }
  }

  /**
   The exact limit for the rows of one table: with two columns or more, rows whose cells stay below
   `n` bytes are told apart if and only if `n` is at most 2^32; with fewer columns, always.
   */
  lemma ExactLimit(width: nat, n: nat)
    ensures InjectiveBelow(width, n) <==> width <= 1 || n <= TWO32
  {
    if width <= 1 {
      forall a: Row, b: Row | |a| == |b| == width && RowBytes(a) == RowBytes(b)
        ensures a == b
      {
        NarrowRows(a, b);
      }
    } else if n <= TWO32 {
      forall a: Row, b: Row | CellsBelow(a, n) && CellsBelow(b, n) && RowBytes(a) == RowBytes(b)
        ensures a == b
      {
        EncodingIsUnique(a, b);
      }
    } else {
      TooLarge(width, n);
    }
  }

  lemma TooLarge(width: nat, n: nat)
    requires width >= 2 && n > TWO32
    ensures !InjectiveBelow(width, n)
  {
    hide RowBytes;
    var z := seq<byte>(TWO32 - 5, i => 0);
    var none: seq<byte> := [];
    var a: Row, b: Row := [Some(EMPTY + z), Some(none)], [Some(none), Some(z + EMPTY)];
    WrappedPair(z);
    var pad: Row := seq(width - 2, i => None);
    RowBytesConcat(a, pad);
    RowBytesConcat(b, pad);
    assert (a + pad)[0] == a[0] && (b + pad)[0] == b[0] && a[0] != b[0] by {
      assert |EMPTY + z| != |none|;
    }
    assert CellsBelow(a + pad, n) && CellsBelow(b + pad, n);
  }

  // ----- comparing checksums -----

  datatype TableVerification = TableVerification(
    table: string, sourceRowCount: nat, targetRowCount: nat, mismatchedRows: nat, passed: bool)

  function Min(a: nat, b: nat): nat {
    if a < b then a else b
  }

  function Differing(source: seq<nat>, target: seq<nat>, n: nat): nat
    requires n <= |source| && n <= |target|
  {
    if n == 0 then 0 else Differing(source, target, n - 1) + (if source[n - 1] != target[n - 1] then 1 else 0)
  }

  function VerifyTable(table: string, source: seq<nat>, target: seq<nat>): TableVerification {
    var differing := Differing(source, target, Min(|source|, |target|));
    var extra := if |source| >= |target| then |source| - |target| else |target| - |source|;
    TableVerification(table, |source|, |target|, differing + extra, differing + extra == 0)
  }

  function DifferingPositions(source: seq<nat>, target: seq<nat>, n: nat): set<nat>
    requires n <= |source| && n <= |target|
  {
    set i: nat | i < n && source[i] != target[i]
  }

  lemma {:induction false} DifferingCounts(source: seq<nat>, target: seq<nat>, n: nat)
    requires n <= |source| && n <= |target|
    ensures Differing(source, target, n) == |DifferingPositions(source, target, n)|
  {
    if n > 0 {
      DifferingCounts(source, target, n - 1);
      var here: set<nat> := if source[n - 1] != target[n - 1] then {n - 1} else {};
      assert DifferingPositions(source, target, n) == DifferingPositions(source, target, n - 1) + here;
    }
  }

  /** The count is the positions that differ plus the difference in length; zero means equal lists. */
  lemma VerificationIsExact(table: string, source: seq<nat>, target: seq<nat>)
    ensures var v := VerifyTable(table, source, target); var n := Min(|source|, |target|);
      && v.mismatchedRows + n ==
           |DifferingPositions(source, target, n)| + (if |source| > |target| then |source| else |target|)
      && (v.passed <==> source == target)
      && v.table == table && v.sourceRowCount == |source| && v.targetRowCount == |target|
  {
    var n := Min(|source|, |target|);
    DifferingCounts(source, target, n);
    var positions := DifferingPositions(source, target, n);
    if VerifyTable(table, source, target).passed {
      assert positions == {};
      forall i | 0 <= i < n
        ensures source[i] == target[i]
      {
        assert i !in positions;
      }
      assert source == target;
    }
    if source == target { assert positions == {}; }
  }

  // ----- the gate -----

  datatype Phase = Discover | Validate | Snapshot | Replicate | Verify | Cutover | Done

  datatype Checkpoint = Checkpoint(phase: Option<Phase>, tablesSnapshotted: seq<string>, resumeToken: Option<string>)

  function HashRows(hash: seq<byte> -> nat, rows: seq<Row>): (h: seq<nat>)
    ensures |h| == |rows| && forall i :: 0 <= i < |rows| ==> h[i] == hash(RowBytes(rows[i]))
  {
    seq<nat>(|rows|, i requires 0 <= i < |rows| => hash(RowBytes(rows[i])))
  }

  /** The hash separates the encodings that are compared with each other. */
  predicate NoCollision(hash: seq<byte> -> nat, source: seq<Row>, target: seq<Row>) {
    forall i :: 0 <= i < |source| && i < |target| && hash(RowBytes(source[i])) == hash(RowBytes(target[i])) ==>
      RowBytes(source[i]) == RowBytes(target[i])
  }

  predicate AllEncodable(rows: seq<Row>) {
    forall i :: 0 <= i < |rows| ==> Encodable(rows[i])
  }

  predicate Comparable(hash: seq<byte> -> nat, source: seq<Row>, target: seq<Row>) {
    NoCollision(hash, source, target) && AllEncodable(source) && AllEncodable(target)
  }

  /** Checksums agree exactly when the rows do. */
  lemma ChecksumsDecide(hash: seq<byte> -> nat, source: seq<Row>, target: seq<Row>)
    requires Comparable(hash, source, target)
    ensures HashRows(hash, source) == HashRows(hash, target) <==> source == target
  {
    if HashRows(hash, source) == HashRows(hash, target) {
      forall i | 0 <= i < |source|
        ensures source[i] == target[i]
      {
        assert HashRows(hash, source)[i] == HashRows(hash, target)[i];
        EncodingIsUnique(source[i], target[i]);
      }
    }
  }

  predicate AllPassed(results: seq<TableVerification>) {
    forall i :: 0 <= i < |results| ==> results[i].passed
  }

  /** The checkpoint file: `Damaged` is one that cannot be read back. */
  datatype File = Missing | Damaged | Holding(checkpoint: Checkpoint)

  /** How writing the file can end: the old file is kept, or lost. */
  datatype Write = Written | Refused | Torn

  function AfterWrite(file: File, checkpoint: Checkpoint, write: Write): File {
    match write
    case Written => Holding(checkpoint)
    case Refused => file
    case Torn => Damaged
  }

  class MigrationEngine {
    var checkpoint: Checkpoint
    var file: File

    constructor (file: File)
      requires !file.Damaged?
      ensures this.file == file
      ensures checkpoint == if file.Holding? then file.checkpoint else Checkpoint(None, [], None)
    {
      this.file := file;
      checkpoint := if file.Holding? then file.checkpoint else Checkpoint(None, [], None);
    }

    /** Opening fails on a file that cannot be read, and on no other. */
    static method Open(file: File) returns (r: Result<MigrationEngine>)
      ensures r.Err? <==> file.Damaged?
      ensures r.Ok? ==> fresh(r.value) && r.value.file == file
      ensures r.Ok? ==> r.value.checkpoint == if file.Holding? then file.checkpoint else Checkpoint(None, [], None)
    {
      if file.Damaged? { return Err; }
      var engine := new MigrationEngine(file);
      return Ok(engine);
    }

    method Save(write: Write) returns (ok: bool)
      modifies this`file
      ensures ok == write.Written? && file == AfterWrite(old(file), checkpoint, write)
    {
      match write {
        case Written => file := Holding(checkpoint);
        case Refused =>
        case Torn => file := Damaged;
      }
      return write.Written?;
    }

    /** One verification a table, in order; the result of saving is ignored. */
    method VerifyTables(hash: seq<byte> -> nat, tables: seq<string>, source: seq<seq<Row>>, target: seq<seq<Row>>,
                        write: Write)
      returns (results: seq<TableVerification>)
      requires |source| == |tables| && |target| == |tables|
      requires forall t :: 0 <= t < |tables| ==> Comparable(hash, source[t], target[t])
      modifies this
      ensures checkpoint == old(checkpoint).(phase := Some(Phase.Verify))
      ensures file == AfterWrite(old(file), checkpoint, write)
      ensures |results| == |tables|
      ensures forall t :: 0 <= t < |tables| ==>
        results[t].table == tables[t] && (results[t].passed <==> source[t] == target[t])
    {
      hide HashRows, VerifyTable, Comparable;
      checkpoint := checkpoint.(phase := Some(Phase.Verify));
      results := [];
      for t := 0 to |tables|
        invariant checkpoint == old(checkpoint).(phase := Some(Phase.Verify)) && file == old(file)
        invariant |results| == t
        invariant forall k :: 0 <= k < t ==>
          results[k].table == tables[k] && (results[k].passed <==> source[k] == target[k])
      {
        var s, d := HashRows(hash, source[t]), HashRows(hash, target[t]);
        VerificationIsExact(tables[t], s, d);
        ChecksumsDecide(hash, source[t], target[t]);
        results := results + [VerifyTable(tables[t], s, d)];
      }
      var _ := Save(write);
    }

    /** Marks the migration done if everything passed; an unsaved mark is an error. */
    method CutoverWith(results: seq<TableVerification>, write: Write) returns (r: Result<bool>)
      modifies this
      ensures AllPassed(results) ==> checkpoint == old(checkpoint).(phase := Some(Phase.Done))
      ensures !AllPassed(results) ==> checkpoint == old(checkpoint) && file == old(file) && r == Ok(false)
      ensures AllPassed(results) ==> r == (if write.Written? then Ok(true) else Err)
      ensures AllPassed(results) ==> file == AfterWrite(old(file), checkpoint, write)
    {
      var allPassed := forall i :: 0 <= i < |results| ==> results[i].passed;
      if allPassed {
        checkpoint := checkpoint.(phase := Some(Phase.Done));
        var ok := Save(write);
        if !ok { return Err; }
      }
      return Ok(allPassed);
    }

    /**
     The cutover command: verify, then cut over. The migration is done if and only if every table's
     rows are the same, in the same order, on both sides.
     */
    method VerifyAndCutover(hash: seq<byte> -> nat, tables: seq<string>, source: seq<seq<Row>>, target: seq<seq<Row>>,
                            verifyWrite: Write, cutoverWrite: Write)
      returns (r: Result<bool>)
      requires |source| == |tables| && |target| == |tables|
      requires forall t :: 0 <= t < |tables| ==> Comparable(hash, source[t], target[t])
      modifies this
      ensures checkpoint.phase == Some(Phase.Done) <==> source == target
      ensures r == Ok(true) ==> source == target && file == Holding(checkpoint)
      ensures r == Ok(false) <==> source != target
      ensures checkpoint == old(checkpoint).(phase := Some(if source == target then Phase.Done else Phase.Verify))
      ensures file == old(file) || file.Damaged? ||
        (file.Holding? && (file.checkpoint.phase == Some(Phase.Done) ==> source == target))
    {
      var results := VerifyTables(hash, tables, source, target, verifyWrite);
      r := CutoverWith(results, cutoverWrite);
      assert AllPassed(results) <==> source == target;
    }
  }
}
