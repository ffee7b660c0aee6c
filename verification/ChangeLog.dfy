/** The captured changes of the source database and what they mean for its tables. */
module ChangeLog {
  import opened Bytes
  import opened Wrappers
  import opened Connector
  import opened Cdc
  import Target

  /** One change row: the table it belongs to, its commit LSN, and the cells the CDC function returns. */
  datatype Entry = Entry(table: nat, lsn: nat, cells: Row)

  type Image = map<Row, Row>

  /** The effect of a committed change on the source table: 2 inserts, 4 is the new row of an update, 1 deletes. */
  function SourceApply(t: TableSchema, m: Image, e: Entry): Image {
    match Operation(e.cells)
    case Err => m
    case Ok(op) =>
      var row := e.cells[4..];
      if op == 2 || op == 4 then m[KeyOf(t, row) := row]
      else if op == 1 then m - {KeyOf(t, row)}
      else m
  }

  /** Changes are well formed: rows fit, keys are known, and no update moves a row to another key. */
  predicate ValidChange(t: TableSchema, m: Image, e: Entry) {
    && Operation(e.cells).Ok?
    && var op, row := Operation(e.cells).value, e.cells[4..];
       && FitsTable(t, row)
       && (op == 2 ==> KeyOf(t, row) !in m)
       && (op == 4 || op == 1 ==> KeyOf(t, row) in m)
  }

  /** Inserts, after-images of updates, and deletes are forwarded; everything else is informational. */
  predicate Forwarded(e: Entry) {
    Operation(e.cells) == Ok(2) || Operation(e.cells) == Ok(4) || Operation(e.cells) == Ok(1)
  }

  /** Replaying the event of a change on the target does to the target what the change did to the source. */
  lemma ApplyFollowsSource(t: TableSchema, rows: seq<Row>, m: Image, e: Entry)
    requires Keyed(t) && ValidChange(t, m, e) && Target.Represents(t, rows, m)
    ensures MapCdcOperation(e.cells, t).Ok? && (MapCdcOperation(e.cells, t).value.Some? <==> Forwarded(e))
    ensures Forwarded(e) ==>
      Target.Represents(t, Target.ApplyChange(t, rows, MapCdcOperation(e.cells, t).value.value), SourceApply(t, m, e))
    ensures !Forwarded(e) ==> SourceApply(t, m, e) == m
  {
    var row := e.cells[4..];
    EventKeyIsKeyOf(t, row);
    if Operation(e.cells).value == 2 {
      Target.InsertRepresents(t, rows, m, row);
    } else if Operation(e.cells).value == 4 {
      Target.UpdateRepresents(t, rows, m, row);
    } else if Operation(e.cells).value == 1 {
      Target.DeleteRepresents(t, rows, m, row);
    }
  }

  /** Without a primary key, updates and deletes are lost: the target table does not change. */
  lemma UnkeyedChangesAreLost(t: TableSchema, rows: seq<Row>, e: Entry)
    requires t.PrimaryKeyColumns() == []
    requires Operation(e.cells) == Ok(4) || Operation(e.cells) == Ok(1)
    ensures Target.ApplyChange(t, rows, MapCdcOperation(e.cells, t).value.value) == rows
  {
    var row := e.cells[4..];
    BlankKey(t.columns, EventKey(t, row));
    Target.NeverSelects(t, rows, row);
  }

  lemma {:induction false} BlankKey(columns: seq<Column>, key: Row)
    requires forall i :: 0 <= i < |key| ==> key[i] == None
    ensures Target.CellConditions(columns, key) == []
  {
    if columns != [] && key != [] { BlankKey(columns[1..], key[1..]); }
  }

  // ----- windows of the log -----

  predicate Sorted(log: seq<Entry>) {
    forall i, j :: 0 <= i < j < |log| ==> log[i].lsn <= log[j].lsn
  }

  predicate InWindow(e: Entry, t: nat, lo: nat, hi: nat) {
    e.table == t && lo < e.lsn <= hi && Forwarded(e)
  }

  /** Positions below `n` of the forwarded changes of table `t` with an LSN in `(lo, hi]`, in log order. */
  function Window(log: seq<Entry>, t: nat, lo: nat, hi: nat, n: nat): (w: seq<nat>)
    requires n <= |log|
    ensures forall k :: 0 <= k < |w| ==> w[k] < n && InWindow(log[w[k]], t, lo, hi)
  {
    if n == 0 then []
    else if InWindow(log[n - 1], t, lo, hi) then Window(log, t, lo, hi, n - 1) + [n - 1]
    else Window(log, t, lo, hi, n - 1)
  }

  /** The source table after the changes below position `n` with an LSN in `(start, hi]`. */
  function SourceState(t: TableSchema, init: Image, log: seq<Entry>, id: nat, start: nat, hi: nat, n: nat): Image
    requires n <= |log|
  {
    if n == 0 then init else
    var m := SourceState(t, init, log, id, start, hi, n - 1);
    if log[n - 1].table == id && start < log[n - 1].lsn <= hi then SourceApply(t, m, log[n - 1]) else m
  }

  function Replay(t: TableSchema, m: Image, log: seq<Entry>, w: seq<nat>): Image
    requires forall k :: 0 <= k < |w| ==> w[k] < |log|
  {
    if w == [] then m else SourceApply(t, Replay(t, m, log, w[..|w| - 1]), log[w[|w| - 1]])
  }

  lemma {:induction false} WindowMember(log: seq<Entry>, t: nat, lo: nat, hi: nat, n: nat, i: nat)
    requires i < n <= |log| && InWindow(log[i], t, lo, hi)
    ensures i in Window(log, t, lo, hi, n)
  {
    if i < n - 1 { WindowMember(log, t, lo, hi, n - 1, i); }
  }

  /** Two bounds that admit the same entries give the same window and the same state. */
  lemma {:induction false} SameBound(t: TableSchema, init: Image, log: seq<Entry>, id: nat, lo: nat, hi: nat,
                                     hi': nat, n: nat)
    requires n <= |log|
    requires forall i :: 0 <= i < n ==> (log[i].lsn <= hi <==> log[i].lsn <= hi')
    ensures Window(log, id, lo, hi, n) == Window(log, id, lo, hi', n)
    ensures SourceState(t, init, log, id, lo, hi, n) == SourceState(t, init, log, id, lo, hi', n)
  {
    if n > 0 { SameBound(t, init, log, id, lo, hi, hi', n - 1); }
  }

  lemma {:induction false} SameLog(t: TableSchema, init: Image, log: seq<Entry>, log': seq<Entry>, id: nat, lo: nat,
                                   hi: nat, n: nat)
    requires n <= |log| && n <= |log'| && forall i :: 0 <= i < n ==> log[i] == log'[i]
    ensures Window(log, id, lo, hi, n) == Window(log', id, lo, hi, n)
    ensures SourceState(t, init, log, id, lo, hi, n) == SourceState(t, init, log', id, lo, hi, n)
  {
    if n > 0 { SameLog(t, init, log, log', id, lo, hi, n - 1); }
  }

  /** Entries from position `n` on lie outside the bound and change nothing. */
  lemma {:induction false} LaterEntries(t: TableSchema, init: Image, log: seq<Entry>, id: nat, lo: nat, hi: nat,
                                        n: nat, n': nat)
    requires n <= n' <= |log| && forall i :: n <= i < n' ==> log[i].lsn > hi
    ensures Window(log, id, lo, hi, n') == Window(log, id, lo, hi, n)
    ensures SourceState(t, init, log, id, lo, hi, n') == SourceState(t, init, log, id, lo, hi, n)
    decreases n'
  {
    if n < n' { LaterEntries(t, init, log, id, lo, hi, n, n' - 1); }
  }

  lemma {:induction false} SkipNothing(t: TableSchema, m: Image, log: seq<Entry>, w: seq<nat>, i: nat)
    requires i < |log| && forall k :: 0 <= k < |w| ==> w[k] < |log|
    ensures Replay(t, m, log, w + [i]) == SourceApply(t, Replay(t, m, log, w), log[i])
  {
    assert (w + [i])[..|w|] == w;
  }

  /** The state at `hi` is the state at `lo` with the window between them replayed. */
  lemma {:induction false} CatchUp(t: TableSchema, init: Image, log: seq<Entry>, id: nat, start: nat, lo: nat,
                                   hi: nat, n: nat)
    requires n <= |log| && Sorted(log) && start <= lo <= hi
    ensures SourceState(t, init, log, id, start, hi, n) ==
            Replay(t, SourceState(t, init, log, id, start, lo, n), log, Window(log, id, lo, hi, n))
  {
    hide SourceApply, Forwarded, Sorted;
    if n > 0 {
      if log[n - 1].lsn <= lo {
        SortedBelow(log, n, lo);
        SameBound(t, init, log, id, start, lo, hi, n);
        NothingBefore(log, id, lo, hi, n);
      } else {
        CatchUp(t, init, log, id, start, lo, hi, n - 1);
        CatchUpOne(t, init, log, id, start, lo, hi, n);
      }
    }
  }

  lemma CatchUpOne(t: TableSchema, init: Image, log: seq<Entry>, id: nat, start: nat, lo: nat, hi: nat, n: nat)
    requires 0 < n <= |log| && start <= lo <= hi && lo < log[n - 1].lsn
    requires SourceState(t, init, log, id, start, hi, n - 1) ==
             Replay(t, SourceState(t, init, log, id, start, lo, n - 1), log, Window(log, id, lo, hi, n - 1))
    ensures SourceState(t, init, log, id, start, hi, n) ==
            Replay(t, SourceState(t, init, log, id, start, lo, n), log, Window(log, id, lo, hi, n))
  {
    hide SourceApply, Forwarded, Replay;
    var m := SourceState(t, init, log, id, start, lo, n - 1);
    var w := Window(log, id, lo, hi, n - 1);
    SkipNothing(t, m, log, w, n - 1);
    Informational(t, Replay(t, m, log, w), log[n - 1]);
  }

  lemma SortedBelow(log: seq<Entry>, n: nat, lo: nat)
    requires 0 < n <= |log| && Sorted(log) && log[n - 1].lsn <= lo
    ensures forall i :: 0 <= i < n ==> log[i].lsn <= lo
  {
  }

  lemma Informational(t: TableSchema, m: Image, e: Entry)
    ensures !Forwarded(e) ==> SourceApply(t, m, e) == m
  {
  }

  lemma {:induction false} NothingBefore(log: seq<Entry>, id: nat, lo: nat, hi: nat, n: nat)
    requires n <= |log| && forall i :: 0 <= i < n ==> log[i].lsn <= lo
    ensures Window(log, id, lo, hi, n) == []
  {
    if n > 0 { NothingBefore(log, id, lo, hi, n - 1); }
  }

  lemma {:induction false} WindowPrefix(log: seq<Entry>, t: nat, lo: nat, hi: nat, n: nat, k: nat)
    requires n <= |log| && k < |Window(log, t, lo, hi, n)|
    ensures Window(log, t, lo, hi, n)[..k] == Window(log, t, lo, hi, Window(log, t, lo, hi, n)[k])
  {
    var w := Window(log, t, lo, hi, n - 1);
    if k < |w| {
      WindowPrefix(log, t, lo, hi, n - 1, k);
      assert Window(log, t, lo, hi, n)[..k] == w[..k];
    } else {
      assert Window(log, t, lo, hi, n)[..k] == w;
    }
  }

  /** Before change `i` of a window, what was replayed so far is the source just before `i`. */
  lemma ReplayedBefore(t: TableSchema, init: Image, log: seq<Entry>, id: nat, start: nat, lo: nat, hi: nat, k: nat)
    requires Sorted(log) && start <= lo <= hi && k < |Window(log, id, lo, hi, |log|)|
    ensures var w := Window(log, id, lo, hi, |log|); var i := w[k];
      Replay(t, SourceState(t, init, log, id, start, lo, |log|), log, w[..k])
        == SourceState(t, init, log, id, start, log[i].lsn, i)
  {
    var i := Window(log, id, lo, hi, |log|)[k];
    WindowPrefix(log, id, lo, hi, |log|, k);
    LaterEntries(t, init, log, id, start, lo, i, |log|);
    CatchUp(t, init, log, id, start, lo, hi, i);
    SameBound(t, init, log, id, start, log[i].lsn, hi, i);
  }

  /** A larger bound only appends to the window. */
  lemma {:induction false} WindowGrows(log: seq<Entry>, t: nat, lo: nat, hi: nat, hi': nat, n: nat)
    requires n <= |log| && Sorted(log) && hi <= hi'
    ensures Window(log, t, lo, hi, n) <= Window(log, t, lo, hi', n)
  {
    if n > 0 {
      WindowGrows(log, t, lo, hi, hi', n - 1);
      if log[n - 1].lsn <= hi {
        SameBound(TableSchema("", "", []), map[], log, t, lo, hi, hi', n);
      }
    }
  }

  /** Adjacent windows join. */
  lemma {:induction false} WindowsJoin(log: seq<Entry>, t: nat, lo: nat, mid: nat, hi: nat, n: nat)
    requires n <= |log| && Sorted(log) && lo <= mid <= hi
    ensures Window(log, t, lo, mid, n) + Window(log, t, mid, hi, n) == Window(log, t, lo, hi, n)
  {
    if n > 0 {
      WindowsJoin(log, t, lo, mid, hi, n - 1);
      if log[n - 1].lsn <= mid {
        NothingBefore(log, t, mid, hi, n);
        SameBound(TableSchema("", "", []), map[], log, t, lo, mid, hi, n);
      }
    }
  }

  /** The state at the starting LSN is the initial one, whatever the log holds. */
  lemma {:induction false} StateAtStart(t: TableSchema, init: Image, log: seq<Entry>, id: nat, start: nat, n: nat)
    requires n <= |log|
    ensures SourceState(t, init, log, id, start, start, n) == init
  {
    if n > 0 { StateAtStart(t, init, log, id, start, n - 1); }
  }
}
