/**
 The Keystone target as a transformer of table contents: the statements `apply_change` issues and
 the WHERE clause of `where_from_key`, with the three-valued logic of SQL comparisons.
 */
module Target {
  import opened Bytes
  import opened Wrappers
  import opened Connector

  /** One `column = literal` condition. */
  datatype Condition = Condition(column: string, value: Cell)

  /** `Never` is the clause `1 = 0`. */
  datatype Where = Never | AllOf(conditions: seq<Condition>)

  function Position(columns: seq<Column>, name: string): (r: Option<nat>)
    ensures r.Some? ==> r.value < |columns| && columns[r.value].name == name
    ensures r.None? ==> forall i :: 0 <= i < |columns| ==> columns[i].name != name
  {
    if columns == [] then None
    else if columns[0].name == name then Some(0)
    else match Position(columns[1..], name)
      case Some(i) => Some(i + 1)
      case None => None
  }

  function KeyCondition(t: TableSchema, name: string, key: Row): seq<Condition> {
    match Position(t.columns, name)
    case None => []
    case Some(i) => if i < |key| then [Condition(name, key[i])] else []
  }

  function KeyConditions(t: TableSchema, names: seq<string>, key: Row): seq<Condition> {
    if names == [] then [] else KeyCondition(t, names[0], key) + KeyConditions(t, names[1..], key)
  }

  /** Without a primary key every known cell takes part. */
  function CellConditions(columns: seq<Column>, key: Row): seq<Condition> {
    if columns == [] || key == [] then [] else
    (if key[0].Some? then [Condition(columns[0].name, key[0])] else []) + CellConditions(columns[1..], key[1..])
  }

  function WhereFromKey(t: TableSchema, key: Row): Where {
    var names := t.PrimaryKeyColumns();
    var conditions := if names == [] then CellConditions(t.columns, key) else KeyConditions(t, names, key);
    if conditions == [] then Never else AllOf(conditions)
  }

  /** `column = literal` is true only when both sides are known and equal. */
  predicate Holds(t: TableSchema, c: Condition, row: Row) {
    match Position(t.columns, c.column)
    case None => false
    case Some(i) => i < |row| && row[i].Some? && c.value.Some? && row[i] == c.value
  }

  predicate Selects(t: TableSchema, w: Where, row: Row) {
    w.AllOf? && forall i :: 0 <= i < |w.conditions| ==> Holds(t, w.conditions[i], row)
  }

  /** SET assigns the columns that have a new cell. */
  function Assign(t: TableSchema, old_: Row, row: Row): Row {
    seq(|old_|, i requires 0 <= i < |old_| => if i < |row| && i < |t.columns| then row[i] else old_[i])
  }

  function UpdateRows(t: TableSchema, rows: seq<Row>, w: Where, row: Row): seq<Row> {
    if rows == [] then []
    else [if Selects(t, w, rows[0]) then Assign(t, rows[0], row) else rows[0]] + UpdateRows(t, rows[1..], w, row)
  }

  function DeleteRows(t: TableSchema, rows: seq<Row>, w: Where): seq<Row> {
    if rows == [] then []
    else (if Selects(t, w, rows[0]) then [] else [rows[0]]) + DeleteRows(t, rows[1..], w)
  }

  function ApplyChange(t: TableSchema, rows: seq<Row>, event: ChangeEvent): seq<Row> {
    match event
    case Insert(_, row) => rows + [row]
    case Update(_, key, row) => UpdateRows(t, rows, WhereFromKey(t, key), row)
    case Delete(_, key) => DeleteRows(t, rows, WhereFromKey(t, key))
    case CommitLsn(_) => rows
  }

  // ----- the clause of a keyed table selects exactly the row with that key -----

  lemma {:induction false} KeyConditionsMember(t: TableSchema, names: seq<string>, key: Row, c: Condition)
    ensures c in KeyConditions(t, names, key) <==> exists n :: n in names && c in KeyCondition(t, n, key)
  {
    if names != [] {
      KeyConditionsMember(t, names[1..], key, c);
    }
  }

  lemma PositionOfColumn(t: TableSchema, i: nat)
    requires Keyed(t) && i < |t.columns|
    ensures Position(t.columns, t.columns[i].name) == Some(i)
  {
  }

  lemma ConditionOfColumn(t: TableSchema, key: Row, i: nat)
    requires Keyed(t) && |key| == |t.columns| && i < |key| && t.columns[i].isPrimaryKey
    ensures Condition(t.columns[i].name, key[i]) in KeyConditions(t, t.PrimaryKeyColumns(), key)
  {
    PositionOfColumn(t, i);
    KeyNamesOfKeyed(t, i);
    KeyConditionsMember(t, t.PrimaryKeyColumns(), key, Condition(t.columns[i].name, key[i]));
  }

  lemma ColumnOfCondition(t: TableSchema, key: Row, c: Condition) returns (i: nat)
    requires Keyed(t) && |key| == |t.columns| && c in KeyConditions(t, t.PrimaryKeyColumns(), key)
    ensures i < |key| && t.columns[i].isPrimaryKey && c == Condition(t.columns[i].name, key[i])
  {
    KeyConditionsMember(t, t.PrimaryKeyColumns(), key, c);
    var n :| n in t.PrimaryKeyColumns() && c in KeyCondition(t, n, key);
    i := Position(t.columns, n).value;
    KeyNamesOfKeyed(t, i);
  }

  lemma SelectsExactlyTheKey(t: TableSchema, row: Row, r: Row)
    requires Keyed(t) && FitsTable(t, row) && |r| == |t.columns|
    ensures Selects(t, WhereFromKey(t, KeyOf(t, row)), r) <==> KeyOf(t, r) == KeyOf(t, row)
  {
    var key := KeyOf(t, row);
    var conditions := KeyConditions(t, t.PrimaryKeyColumns(), key);
    var some :| 0 <= some < |t.columns| && t.columns[some].isPrimaryKey;
    ConditionOfColumn(t, key, some);
    KeyNamesOfKeyed(t, some);
    assert WhereFromKey(t, key) == AllOf(conditions);
    if KeyOf(t, r) == key {
      forall j | 0 <= j < |conditions|
        ensures Holds(t, conditions[j], r)
      {
        var i := ColumnOfCondition(t, key, conditions[j]);
        PositionOfColumn(t, i);
        assert KeyOf(t, r)[i] == key[i];
      }
    }
    if Selects(t, AllOf(conditions), r) {
      forall i | 0 <= i < |t.columns|
        ensures KeyOf(t, r)[i] == key[i]
      {
        if t.columns[i].isPrimaryKey {
          ConditionOfColumn(t, key, i);
          PositionOfColumn(t, i);
        }
      }
    }
  }

  // ----- contents of a keyed table as a map from key to row -----

  /** The table holds exactly the rows of `m`, one for each key. */
  predicate Represents(t: TableSchema, rows: seq<Row>, m: map<Row, Row>) {
    if rows == [] then m == map[]
    else
      var k := KeyOf(t, rows[0]);
      && |rows[0]| == |t.columns|
      && k in m && m[k] == rows[0]
      && Represents(t, rows[1..], m - {k})
  }

  lemma {:induction false} RepresentsMeans(t: TableSchema, rows: seq<Row>, m: map<Row, Row>)
    requires Represents(t, rows, m)
    ensures |rows| == |m|
    ensures forall i :: 0 <= i < |rows| ==> KeyOf(t, rows[i]) in m && m[KeyOf(t, rows[i])] == rows[i]
    ensures forall i, j :: 0 <= i < j < |rows| ==> KeyOf(t, rows[i]) != KeyOf(t, rows[j])
  {
    if rows != [] {
      var k := KeyOf(t, rows[0]);
      var rest := m - {k};
      RepresentsMeans(t, rows[1..], rest);
      assert m.Keys == rest.Keys + {k};
      assert forall i :: 1 <= i < |rows| ==> rows[i] == rows[1..][i - 1];
    }
  }

  /** INSERT of a new key meets no row with that key and adds exactly that row. */
  lemma {:induction false} InsertRepresents(t: TableSchema, rows: seq<Row>, m: map<Row, Row>, row: Row)
    requires Represents(t, rows, m) && |row| == |t.columns| && KeyOf(t, row) !in m
    ensures forall i :: 0 <= i < |rows| ==> KeyOf(t, rows[i]) != KeyOf(t, row)
    ensures Represents(t, rows + [row], m[KeyOf(t, row) := row])
  {
    var k := KeyOf(t, row);
    hide KeyOf;
    if rows == [] {
      assert rows + [row] == [row] && map[k := row] - {k} == map[];
    } else {
      var first := KeyOf(t, rows[0]);
      InsertRepresents(t, rows[1..], m - {first}, row);
      assert (rows + [row])[1..] == rows[1..] + [row];
      assert m[k := row] - {first} == (m - {first})[k := row];
    }
  }

  lemma {:induction false} UpdateRepresents(t: TableSchema, rows: seq<Row>, m: map<Row, Row>, row: Row)
    requires Keyed(t) && FitsTable(t, row) && Represents(t, rows, m)
    ensures Represents(t, UpdateRows(t, rows, WhereFromKey(t, KeyOf(t, row)), row),
                       if KeyOf(t, row) in m then m[KeyOf(t, row) := row] else m)
  {
    if rows != [] {
      var k, first := KeyOf(t, row), KeyOf(t, rows[0]);
      var rest := m - {first};
      UpdateRepresents(t, rows[1..], rest, row);
      SelectsExactlyTheKey(t, row, rows[0]);
      assert Assign(t, rows[0], row) == row;
      hide KeyOf, WhereFromKey, Selects, Keyed, FitsTable, Assign;
      if k == first {
        assert m[k := row] - {k} == rest;
      } else if k in m {
        assert m[k := row] - {first} == rest[k := row];
      }
    }
  }

  lemma {:induction false} DeleteRepresents(t: TableSchema, rows: seq<Row>, m: map<Row, Row>, row: Row)
    requires Keyed(t) && FitsTable(t, row) && Represents(t, rows, m)
    ensures Represents(t, DeleteRows(t, rows, WhereFromKey(t, KeyOf(t, row))), m - {KeyOf(t, row)})
  {
    if rows != [] {
      var k, first := KeyOf(t, row), KeyOf(t, rows[0]);
      DeleteRepresents(t, rows[1..], m - {first}, row);
      SelectsExactlyTheKey(t, row, rows[0]);
      hide KeyOf, WhereFromKey, Selects, Keyed, FitsTable;
      var w := WhereFromKey(t, k);
      assert (m - {first}) - {k} == (m - {k}) - {first};
      if k == first {
        assert (m - {k}) - {k} == m - {k};
        assert DeleteRows(t, rows, w) == DeleteRows(t, rows[1..], w);
      } else {
        assert [rows[0]] + DeleteRows(t, rows[1..], w) == DeleteRows(t, rows, w);
        assert DeleteRows(t, rows, w)[1..] == DeleteRows(t, rows[1..], w);
      }
    } else {
      assert m - {KeyOf(t, row)} == map[];
    }
  }

  lemma {:induction false} NeverSelects(t: TableSchema, rows: seq<Row>, row: Row)
    ensures UpdateRows(t, rows, Never, row) == rows && DeleteRows(t, rows, Never) == rows
  {
    if rows != [] { NeverSelects(t, rows[1..], row); }
  }

  // ----- tables without a primary key -----

  lemma {:induction false} CellConditionsMember(columns: seq<Column>, key: Row, c: Condition)
    ensures c in CellConditions(columns, key) <==>
      exists i :: 0 <= i < |columns| && i < |key| && key[i].Some? && c == Condition(columns[i].name, key[i])
  {
    if columns != [] && key != [] {
      CellConditionsMember(columns[1..], key[1..], c);
      if c in CellConditions(columns[1..], key[1..]) {
        var i :| 0 <= i < |columns[1..]| && i < |key[1..]| && key[1..][i].Some?
          && c == Condition(columns[1..][i].name, key[1..][i]);
        assert columns[i + 1] == columns[1..][i] && key[i + 1] == key[1..][i];
      }
      if i :| 0 < i < |columns| && i < |key| && key[i].Some? && c == Condition(columns[i].name, key[i]) {
        assert columns[1..][i - 1] == columns[i] && key[1..][i - 1] == key[i];
      }
    }
  }

  /**
   Without a primary key the clause compares every known cell of the event's key: it selects the rows that
   agree with all of them, and no row when none is known.
   */
  lemma SelectsKnownCells(t: TableSchema, key: Row, r: Row)
    requires t.PrimaryKeyColumns() == [] && |key| == |t.columns| == |r|
    requires forall i, j :: 0 <= i < j < |t.columns| ==> t.columns[i].name != t.columns[j].name
    ensures Selects(t, WhereFromKey(t, key), r) <==>
      (exists i :: 0 <= i < |key| && key[i].Some?) && forall i :: 0 <= i < |key| && key[i].Some? ==> r[i] == key[i]
  {
    var conditions := CellConditions(t.columns, key);
    forall i | 0 <= i < |key| && key[i].Some?
      ensures Condition(t.columns[i].name, key[i]) in conditions
      ensures Holds(t, Condition(t.columns[i].name, key[i]), r) <==> r[i] == key[i]
    {
      CellConditionsMember(t.columns, key, Condition(t.columns[i].name, key[i]));
      PositionAt(t, i);
    }
    forall c | c in conditions
      ensures exists i :: 0 <= i < |key| && key[i].Some? && c == Condition(t.columns[i].name, key[i])
    {
      CellConditionsMember(t.columns, key, c);
    }
    hide Holds, CellConditions;
    assert conditions != [] ==> conditions[0] in conditions;
    assert conditions == [] ==> forall i :: 0 <= i < |key| ==> key[i].None?;
    if conditions != [] {
      assert Selects(t, WhereFromKey(t, key), r) <==> forall c :: c in conditions ==> Holds(t, c, r);
    }
  }

  lemma PositionAt(t: TableSchema, i: nat)
    requires i < |t.columns|
    requires forall a, b :: 0 <= a < b < |t.columns| ==> t.columns[a].name != t.columns[b].name
    ensures Position(t.columns, t.columns[i].name) == Some(i)
  {
    hide Position;
    var r := Position(t.columns, t.columns[i].name);
    assert r.Some? && t.columns[r.value].name == t.columns[i].name;
  }
}
