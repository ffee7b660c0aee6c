/**
 Changes applied again after a restart. Delivery is at least once: a session that resumes from an older
 token sends part of a window a second time. Updates and deletes bear that; an insert does not.
 */
module Reapply {
  import opened Bytes
  import opened Wrappers
  import opened Connector
  import opened Cdc
  import opened ChangeLog
  import opened Replication
  import Target

  /** An update or a delete of a row that fits the table. */
  predicate Repeatable(t: TableSchema, e: Entry) {
    && (Operation(e.cells) == Ok(4) || Operation(e.cells) == Ok(1))
    && FitsTable(t, e.cells[4..])
  }

  predicate AllRepeatable(t: TableSchema, log: seq<Entry>, w: seq<nat>) {
    forall k :: 0 <= k < |w| ==> w[k] < |log| && Repeatable(t, log[w[k]])
  }

  function KeyFor(t: TableSchema, e: Entry): Row
    requires Repeatable(t, e)
  {
    KeyOf(t, e.cells[4..])
  }

  /** What the event of a change does to the table the target stands for, its key present or not. */
  function Effect(t: TableSchema, m: Image, e: Entry): Image
    requires Repeatable(t, e)
  {
    var key := KeyFor(t, e);
    if Operation(e.cells) == Ok(1) then m - {key}
    else if key in m then m[key := e.cells[4..]]
    else m
  }

  function Effects(t: TableSchema, m: Image, log: seq<Entry>, w: seq<nat>): Image
    requires AllRepeatable(t, log, w)
  {
    if w == [] then m else Effect(t, Effects(t, m, log, w[..|w| - 1]), log[w[|w| - 1]])
  }

  /** The statements of `apply_change` for the changes `w`, one after the other. */
  function ApplyAll(t: TableSchema, rows: seq<Row>, log: seq<Entry>, w: seq<nat>): seq<Row>
    requires AllRepeatable(t, log, w)
  {
    if w == [] then rows
    else
      var e := log[w[|w| - 1]];
      Target.ApplyChange(t, ApplyAll(t, rows, log, w[..|w| - 1]), MapCdcOperation(e.cells, t).value.value)
  }

  lemma ApplyOne(t: TableSchema, rows: seq<Row>, m: Image, e: Entry)
    requires Keyed(t) && Repeatable(t, e) && Target.Represents(t, rows, m)
    ensures Target.Represents(t, Target.ApplyChange(t, rows, MapCdcOperation(e.cells, t).value.value), Effect(t, m, e))
  {
    hide Target.Represents, Target.UpdateRows, Target.DeleteRows, Target.WhereFromKey;
    var row := e.cells[4..];
    EventKeyIsKeyOf(t, row);
    if Operation(e.cells).value == 4 {
      Target.UpdateRepresents(t, rows, m, row);
    } else {
      Target.DeleteRepresents(t, rows, m, row);
    }
  }

  lemma {:induction false} ApplyAllRepresents(t: TableSchema, rows: seq<Row>, m: Image, log: seq<Entry>, w: seq<nat>)
    requires Keyed(t) && AllRepeatable(t, log, w) && Target.Represents(t, rows, m)
    ensures Target.Represents(t, ApplyAll(t, rows, log, w), Effects(t, m, log, w))
  {
    hide Target.Represents, Effect, Target.ApplyChange;
    if w != [] {
      var v := w[..|w| - 1];
      ApplyAllRepresents(t, rows, m, log, v);
      ApplyOne(t, ApplyAll(t, rows, log, v), Effects(t, m, log, v), log[w[|w| - 1]]);
    }
  }

  // ----- one key at a time -----

  function At(m: Image, k: Row): Option<Row> {
    if k in m then Some(m[k]) else None
  }

  /** What becomes of the row under key `k`. */
  function Fate(t: TableSchema, v: Option<Row>, log: seq<Entry>, w: seq<nat>, k: Row): Option<Row>
    requires AllRepeatable(t, log, w)
  {
    if w == [] then v
    else
      var e, before := log[w[|w| - 1]], Fate(t, v, log, w[..|w| - 1], k);
      if KeyFor(t, e) != k then before
      else if before.None? || Operation(e.cells) == Ok(1) then None
      else Some(e.cells[4..])
  }

  predicate Touched(t: TableSchema, log: seq<Entry>, w: seq<nat>, k: Row)
    requires AllRepeatable(t, log, w)
  {
    w != [] && (KeyFor(t, log[w[|w| - 1]]) == k || Touched(t, log, w[..|w| - 1], k))
  }

  lemma {:induction false} FateOfKey(t: TableSchema, m: Image, log: seq<Entry>, w: seq<nat>, k: Row)
    requires AllRepeatable(t, log, w)
    ensures At(Effects(t, m, log, w), k) == Fate(t, At(m, k), log, w, k)
  {
    hide KeyOf, Operation;
    if w != [] { FateOfKey(t, m, log, w[..|w| - 1], k); }
  }

  /** Where there is no row none appears; a row not touched stays; a row touched is forgotten. */
  lemma {:induction false} FateShape(t: TableSchema, x: Row, y: Row, log: seq<Entry>, w: seq<nat>, k: Row)
    requires AllRepeatable(t, log, w)
    ensures Fate(t, None, log, w, k) == None
    ensures !Touched(t, log, w, k) ==> Fate(t, Some(x), log, w, k) == Some(x)
    ensures Touched(t, log, w, k) ==> Fate(t, Some(x), log, w, k) == Fate(t, Some(y), log, w, k)
    decreases w
  {
    hide KeyOf, Operation;
    if w != [] {
      FateShape(t, x, y, log, w[..|w| - 1], k);
      SameFate(t, x, y, log, w[..|w| - 1], k);
    }
  }

  /** A row and another meet the same kind of end: both survive or neither does. */
  lemma {:induction false} SameFate(t: TableSchema, x: Row, y: Row, log: seq<Entry>, w: seq<nat>, k: Row)
    requires AllRepeatable(t, log, w)
    ensures Fate(t, Some(x), log, w, k).Some? <==> Fate(t, Some(y), log, w, k).Some?
  {
    hide KeyOf, Operation;
    if w != [] { SameFate(t, x, y, log, w[..|w| - 1], k); }
  }

  lemma {:induction false} GoneStaysGone(t: TableSchema, v: Option<Row>, log: seq<Entry>, w: seq<nat>, n: nat, k: Row)
    requires AllRepeatable(t, log, w) && n <= |w|
    ensures Fate(t, v, log, w[..n], k) == None ==> Fate(t, v, log, w, k) == None
    ensures !Touched(t, log, w, k) ==> !Touched(t, log, w[..n], k)
  {
    hide KeyOf, Operation;
    if n < |w| {
      assert w[..|w| - 1][..n] == w[..n];
      GoneStaysGone(t, v, log, w[..|w| - 1], n, k);
    } else {
      assert w[..n] == w;
    }
  }

  lemma FateTwice(t: TableSchema, v: Option<Row>, log: seq<Entry>, w: seq<nat>, n: nat, k: Row)
    requires AllRepeatable(t, log, w) && n <= |w|
    ensures Fate(t, Fate(t, v, log, w[..n], k), log, w, k) == Fate(t, v, log, w, k)
  {
    hide Fate, Touched, KeyOf, Operation;
    var once := Fate(t, v, log, w[..n], k);
    var x := if v.Some? then v.value else [];
    var y := if once.Some? then once.value else [];
    GoneStaysGone(t, v, log, w, n, k);
    FateShape(t, x, y, log, w, k);
    FateShape(t, x, y, log, w[..n], k);
  }

  /** Doing a beginning of `w` first makes no difference to doing all of it. */
  lemma EffectsTwice(t: TableSchema, m: Image, log: seq<Entry>, w: seq<nat>, n: nat)
    requires AllRepeatable(t, log, w) && n <= |w|
    ensures Effects(t, Effects(t, m, log, w[..n]), log, w) == Effects(t, m, log, w)
  {
    hide Effects, Fate;
    var a, b := Effects(t, Effects(t, m, log, w[..n]), log, w), Effects(t, m, log, w);
    forall k: Row
      ensures At(a, k) == At(b, k)
    {
      FateOfKey(t, m, log, w[..n], k);
      FateOfKey(t, Effects(t, m, log, w[..n]), log, w, k);
      FateOfKey(t, m, log, w, k);
      FateTwice(t, At(m, k), log, w, n, k);
    }
    SameImage(a, b);
  }

  lemma SameImage(a: Image, b: Image)
    requires forall k: Row :: At(a, k) == At(b, k)
    ensures a == b
  {
    forall k: Row
      ensures k in a <==> k in b
      ensures k in a && k in b ==> a[k] == b[k]
    {
      assert At(a, k) == At(b, k);
    }
  }

  // ----- back in step -----

  /** Along the true history every change finds its row. */
  lemma {:induction false} EffectsAreReplay(t: TableSchema, m: Image, log: seq<Entry>, w: seq<nat>)
    requires AllRepeatable(t, log, w)
    requires forall k :: 0 <= k < |w| ==> KeyFor(t, log[w[k]]) in Replay(t, m, log, w[..k])
    ensures Effects(t, m, log, w) == Replay(t, m, log, w)
  {
    hide KeyFor, Operation, Effect, SourceApply, Repeatable;
    if w != [] {
      var v := w[..|w| - 1];
      forall k | 0 <= k < |v|
        ensures KeyFor(t, log[v[k]]) in Replay(t, m, log, v[..k])
      {
        assert v[..k] == w[..k];
      }
      EffectsAreReplay(t, m, log, v);
      assert w[..|w| - 1] == v;
      EffectIsChange(t, Replay(t, m, log, v), log[w[|w| - 1]]);
    }
  }

  lemma EffectIsChange(t: TableSchema, m: Image, e: Entry)
    requires Repeatable(t, e) && KeyFor(t, e) in m
    ensures Effect(t, m, e) == SourceApply(t, m, e)
  {
    hide KeyOf, Operation;
  }

  /** The changes of table `t` that a window sends. */
  function WindowOf(log: seq<Entry>, t: nat, base: nat, hi: nat): seq<nat> {
    Window(log, t, base, hi, |log|)
  }

  lemma WindowFindsRows(c: Config, log: seq<Entry>, clock: nat, t: nat, base: nat, hi: nat, k: nat)
    requires ValidConfig(c) && ValidLog(c, log, clock) && t < |c.tables| && c.start <= base <= hi
    requires k < |WindowOf(log, t, base, hi)| && !(Operation(log[WindowOf(log, t, base, hi)[k]].cells) == Ok(2))
    ensures var w := WindowOf(log, t, base, hi);
      && Repeatable(c.tables[t], log[w[k]])
      && KeyFor(c.tables[t], log[w[k]]) in Replay(c.tables[t], ImageAt(c, log, t, base), log, w[..k])
  {
    hide Window, Replay, SourceState, KeyOf, Operation;
    ReplayedBefore(c.tables[t], c.init[t], log, t, c.start, base, hi, k);
    assert ValidEntry(c, log, WindowOf(log, t, base, hi)[k]);
  }

  /**
   A window without inserts, sent again from its beginning to a table that had already seen any part of
   it, brings the table in step with the source at the window's end.
   */
  lemma BackInStep(c: Config, log: seq<Entry>, clock: nat, t: nat, base: nat, hi: nat, n: nat, rows: seq<Row>)
    requires ValidConfig(c) && ValidLog(c, log, clock) && t < |c.tables| && c.start <= base <= hi
    requires n <= |WindowOf(log, t, base, hi)|
    requires forall i :: i in WindowOf(log, t, base, hi) && i < |log| ==> Operation(log[i].cells) != Ok(2)
    requires Target.Represents(c.tables[t], rows,
      Replay(c.tables[t], ImageAt(c, log, t, base), log, WindowOf(log, t, base, hi)[..n]))
    ensures AllRepeatable(c.tables[t], log, WindowOf(log, t, base, hi))
    ensures Target.Represents(c.tables[t], ApplyAll(c.tables[t], rows, log, WindowOf(log, t, base, hi)),
                              ImageAt(c, log, t, hi))
  {
    hide WindowOf, Replay, SourceState, Repeatable, KeyFor, Target.Represents, ValidLog, Operation;
    var table, w, m := c.tables[t], WindowOf(log, t, base, hi), ImageAt(c, log, t, base);
    forall k | 0 <= k < |w|
      ensures w[k] < |log|
    {
      WindowInLog(log, t, base, hi, k);
    }
    forall k | 0 <= k < |w|
      ensures w[k] < |log| && Repeatable(table, log[w[k]])
      ensures KeyFor(table, log[w[k]]) in Replay(table, m, log, w[..k])
    {
      assert w[k] in w;
      WindowFindsRows(c, log, clock, t, base, hi, k);
    }
    forall k | 0 <= k < n
      ensures KeyFor(table, log[w[..n][k]]) in Replay(table, m, log, w[..n][..k])
    {
      assert w[..n][..k] == w[..k];
    }
    EffectsAreReplay(table, m, log, w);
    EffectsAreReplay(table, m, log, w[..n]);
    EffectsTwice(table, m, log, w, n);
    ApplyAllRepresents(table, rows, Replay(table, m, log, w[..n]), log, w);
    Caught(c, log, clock, t, base, hi);
  }

  lemma WindowInLog(log: seq<Entry>, t: nat, base: nat, hi: nat, k: nat)
    requires k < |WindowOf(log, t, base, hi)|
    ensures WindowOf(log, t, base, hi)[k] < |log|
  {
    hide Window;
  }

  lemma Caught(c: Config, log: seq<Entry>, clock: nat, t: nat, base: nat, hi: nat)
    requires ValidConfig(c) && ValidLog(c, log, clock) && t < |c.tables| && c.start <= base <= hi
    requires forall k :: 0 <= k < |WindowOf(log, t, base, hi)| ==> WindowOf(log, t, base, hi)[k] < |log|
    ensures Replay(c.tables[t], ImageAt(c, log, t, base), log, WindowOf(log, t, base, hi)) == ImageAt(c, log, t, hi)
  {
    hide Window, Replay, SourceState, ValidEntry;
    CatchUp(c.tables[t], c.init[t], log, t, c.start, base, hi, |log|);
  }

  /** An insert bears no repetition: the table it leaves stands for something if and only if its key was new. */
  lemma InsertOnlyOnce(t: TableSchema, rows: seq<Row>, m: Image, row: Row)
    requires Target.Represents(t, rows, m) && |row| == |t.columns|
    ensures (exists m' :: Target.Represents(t, rows + [row], m')) <==> KeyOf(t, row) !in m
  {
    if KeyOf(t, row) !in m { Target.InsertRepresents(t, rows, m, row); }
    forall m' | Target.Represents(t, rows + [row], m')
      ensures KeyOf(t, row) !in m
    {
      NotTwice(t, rows, m, row, m');
    }
  }

  lemma NotTwice(t: TableSchema, rows: seq<Row>, m: Image, row: Row, m': Image)
    requires Target.Represents(t, rows, m) && Target.Represents(t, rows + [row], m')
    ensures KeyOf(t, row) !in m
  {
    hide KeyOf, Target.Represents;
    Target.RepresentsMeans(t, rows + [row], m');
    forall i | 0 <= i < |rows|
      ensures KeyOf(t, rows[i]) != KeyOf(t, row)
    {
      assert (rows + [row])[i] == rows[i] && (rows + [row])[|rows|] == row;
    }
    if KeyOf(t, row) in m { KeyIsHeld(t, rows, m, KeyOf(t, row)); }
  }

  lemma {:induction false} KeyIsHeld(t: TableSchema, rows: seq<Row>, m: Image, k: Row)
    requires Target.Represents(t, rows, m) && k in m
    ensures exists i :: 0 <= i < |rows| && KeyOf(t, rows[i]) == k
  {
    hide KeyOf;
    if rows != [] && KeyOf(t, rows[0]) != k {
      KeyIsHeld(t, rows[1..], m - {KeyOf(t, rows[0])}, k);
      var i :| 0 <= i < |rows[1..]| && KeyOf(t, rows[1..][i]) == k;
      assert rows[i + 1] == rows[1..][i];
    }
  }
}
