/** What sources and targets exchange: table schemas, rows and change events. */
module Connector {
  import opened Bytes
  import opened Wrappers

  /** `None` is SQL NULL, otherwise the text form of the value. */
  type Cell = Option<seq<byte>>
  type Row = seq<Cell>

  datatype Column = Column(name: string, isPrimaryKey: bool)

  datatype TableSchema = TableSchema(schema: string, name: string, columns: seq<Column>) {

    function QualifiedName(): string {
      schema + "." + name
    }

    function PrimaryKeyColumns(): seq<string> {
      KeyNames(columns)
    }
  }

  function KeyNames(columns: seq<Column>): seq<string> {
    if columns == [] then []
    else (if columns[0].isPrimaryKey then [columns[0].name] else []) + KeyNames(columns[1..])
  }

  datatype ChangeEvent =
    | Insert(table: string, row: Row)
    | Update(table: string, key: Row, row: Row)
    | Delete(table: string, key: Row)
    | CommitLsn(token: string)

  // ----- tables with a primary key -----

  /** Column names are distinct and some column is in the primary key. */
  predicate Keyed(t: TableSchema) {
    && (forall i, j :: 0 <= i < j < |t.columns| ==> t.columns[i].name != t.columns[j].name)
    && (exists i :: 0 <= i < |t.columns| && t.columns[i].isPrimaryKey)
  }

  /** A row with its key columns kept and every other column blanked. */
  function KeyOf(t: TableSchema, row: Row): (k: Row)
    ensures |k| == |t.columns|
  {
    seq(|t.columns|, i requires 0 <= i < |t.columns| =>
      if t.columns[i].isPrimaryKey && i < |row| then row[i] else None)
  }

  /** The row has one cell a column and no NULL in its key. */
  predicate FitsTable(t: TableSchema, row: Row) {
    && |row| == |t.columns|
    && forall i :: 0 <= i < |row| && t.columns[i].isPrimaryKey ==> row[i].Some?
  }

  lemma {:induction false} KeyNamesMember(columns: seq<Column>, n: string)
    ensures n in KeyNames(columns) <==>
            exists i :: 0 <= i < |columns| && columns[i].isPrimaryKey && columns[i].name == n
  {
    if columns != [] {
      KeyNamesMember(columns[1..], n);
      var rest := columns[1..];
      if i :| 0 <= i < |rest| && rest[i].isPrimaryKey && rest[i].name == n {
        assert columns[i + 1] == rest[i];
      }
      if i :| 0 <= i < |columns| && columns[i].isPrimaryKey && columns[i].name == n {
        assert i > 0 ==> rest[i - 1] == columns[i];
      }
    }
  }

  lemma KeyNamesOfKeyed(t: TableSchema, i: nat)
    requires Keyed(t) && i < |t.columns|
    ensures t.columns[i].name in t.PrimaryKeyColumns() <==> t.columns[i].isPrimaryKey
    ensures t.PrimaryKeyColumns() != []
  {
    KeyNamesMember(t.columns, t.columns[i].name);
    var k :| 0 <= k < |t.columns| && t.columns[k].isPrimaryKey;
    KeyNamesMember(t.columns, t.columns[k].name);
  }
}
