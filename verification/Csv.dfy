/** The CSV printer and parser of the command line tool, and exactly what a round trip keeps. */
module Csv {
  import opened Wrappers

  type Line = seq<string>

  // ----- printing -----

  predicate NeedsQuotes(s: string) {
    ',' in s || '"' in s || '\n' in s || '\r' in s
  }

  /** Every quote doubled. */
  function Doubled(s: string): string {
    if s == "" then "" else (if s[0] == '"' then "\"\"" else [s[0]]) + Doubled(s[1..])
  }

  function Escape(s: string): string {
    if NeedsQuotes(s) then "\"" + Doubled(s) + "\"" else s
  }

  function JoinEscaped(line: Line): string {
    if line == [] then ""
    else if |line| == 1 then Escape(line[0])
    else Escape(line[0]) + "," + JoinEscaped(line[1..])
  }

  function RenderLines(lines: seq<Line>): string {
    if lines == [] then "" else JoinEscaped(lines[0]) + "\n" + RenderLines(lines[1..])
  }

  /** A result row as text: NULL and missing cells become the empty string. */
  function CellText(row: seq<Option<string>>, i: nat): string {
    if i < |row| && row[i].Some? then row[i].value else ""
  }

  function RowLine(columns: Line, row: seq<Option<string>>): (line: Line)
    ensures |line| == |columns|
  {
    seq(|columns|, i requires 0 <= i < |columns| => CellText(row, i))
  }

  function Lines(columns: Line, rows: seq<seq<Option<string>>>): (lines: seq<Line>)
    ensures |lines| == |rows| + 1
  {
    [columns] + seq(|rows|, i requires 0 <= i < |rows| => RowLine(columns, rows[i]))
  }

  method RenderCsv(columns: Line, rows: seq<seq<Option<string>>>) returns (out: string)
    ensures out == RenderLines(Lines(columns, rows))
  {
    ghost var lines := Lines(columns, rows);
    out := JoinEscaped(columns);
    out := out + "\n";
    RenderSnoc([], columns);
    assert lines[..1] == [columns] && out == "" + JoinEscaped(columns) + "\n";
    for i := 0 to |rows|
      invariant out == RenderLines(lines[..i + 1])
    {
      var line := JoinEscaped(RowLine(columns, rows[i]));
      RenderSnoc(lines[..i + 1], lines[i + 1]);
      assert lines[..i + 2] == lines[..i + 1] + [lines[i + 1]];
      out := out + line;
      out := out + "\n";
    }
    assert lines[..|lines|] == lines;
  }

  lemma {:induction false} RenderSnoc(lines: seq<Line>, line: Line)
    ensures RenderLines(lines + [line]) == RenderLines(lines) + JoinEscaped(line) + "\n"
  {
    hide JoinEscaped;
    if lines == [] {
      assert lines + [line] == [line] && [line][1..] == [];
    } else {
      RenderSnoc(lines[1..], line);
      assert (lines + [line])[1..] == lines[1..] + [line];
    }
  }

  // ----- parsing -----

  datatype Parser = Parser(rows: seq<Line>, row: Line, field: string, quoted: bool)

  const START: Parser := Parser([], [], "", false)

  /** One character outside quotes. */
  function Plain(p: Parser, c: char): Parser {
    if c == '"' then p.(quoted := true)
    else if c == ',' then p.(row := p.row + [p.field], field := "")
    else if c == '\r' then p
    else if c == '\n' then p.(rows := p.rows + [p.row + [p.field]], row := [], field := "")
    else p.(field := p.field + [c])
  }

  /** The parser after all of `s`. */
  function Scan(s: string, p: Parser): Parser
    decreases |s|
  {
    if s == "" then p
    else if !p.quoted then Scan(s[1..], Plain(p, s[0]))
    else if s[0] != '"' then Scan(s[1..], p.(field := p.field + [s[0]]))
    else if |s| > 1 && s[1] == '"' then Scan(s[2..], p.(field := p.field + ['"']))
    else Scan(s[1..], p.(quoted := false))
  }

  /** What the final `retain` keeps. */
  function KeepLines(lines: seq<Line>): seq<Line> {
    if lines == [] then []
    else (if |lines[0]| == 1 && lines[0][0] == "" then [] else [lines[0]]) + KeepLines(lines[1..])
  }

  function Finish(p: Parser): seq<Line> {
    KeepLines(if p.field != "" || p.row != [] then p.rows + [p.row + [p.field]] else p.rows)
  }

  method ParseCsv(content: string) returns (rows: seq<Line>)
    ensures rows == Finish(Scan(content, START))
  {
    rows := [];
    var row: Line, field: string, quoted := [], "", false;
    var i := 0;
    assert content[0..] == content;
    while i < |content|
      invariant 0 <= i <= |content|
      invariant Scan(content[i..], Parser(rows, row, field, quoted)) == Scan(content, START)
    {
      hide Finish, KeepLines;
      var c := content[i];
      assert content[i..][1..] == content[i + 1..];
      i := i + 1;
      if quoted {
        if c == '"' {
          if i < |content| && content[i] == '"' {
            assert content[i - 1..][2..] == content[i + 1..];
            field := field + ['"'];
            i := i + 1;
          } else {
            quoted := false;
          }
        } else {
          field := field + [c];
        }
      } else {
        match c {
          case '"' => quoted := true;
          case ',' => row, field := row + [field], "";
          case '\r' =>
          case '\n' => rows, row, field := rows + [row + [field]], [], "";
          case _ => field := field + [c];
        }
      }
    }
    if field != "" || row != [] {
      row := row + [field];
      rows := rows + [row];
    }
    rows := Retain(rows);
  }

  method Retain(lines: seq<Line>) returns (kept: seq<Line>)
    ensures kept == KeepLines(lines)
  {
    kept := [];
    for i := 0 to |lines|
      invariant kept + KeepLines(lines[i..]) == KeepLines(lines)
    {
      assert lines[i..][1..] == lines[i + 1..];
      if !(|lines[i]| == 1 && lines[i][0] == "") {
        assert KeepLines(lines[i..]) == [lines[i]] + KeepLines(lines[i + 1..]);
        assert kept + ([lines[i]] + KeepLines(lines[i + 1..])) == kept + [lines[i]] + KeepLines(lines[i + 1..]);
        kept := kept + [lines[i]];
      }
    }
  }

  // ----- round trip -----

  lemma {:induction false} QuotedScan(s: string, rest: string, p: Parser)
    requires p.quoted && (rest == "" || rest[0] != '"')
    ensures Scan(Doubled(s) + "\"" + rest, p) == Scan(rest, p.(field := p.field + s, quoted := false))
  {
    var text := Doubled(s) + "\"" + rest;
    if s == "" {
      assert text == "\"" + rest && text[1..] == rest && p.field + "" == p.field;
    } else {
      var q := p.(field := p.field + [s[0]]);
      QuotedScan(s[1..], rest, q);
      var more := Doubled(s[1..]) + "\"" + rest;
      assert q.field + s[1..] == p.field + s;
      if s[0] == '"' {
        assert text == "\"\"" + more && text[2..] == more;
      } else {
        assert text == [s[0]] + more && text[1..] == more;
      }
    }
  }

  lemma {:induction false} PlainScan(s: string, rest: string, p: Parser)
    requires !p.quoted && !NeedsQuotes(s)
    ensures Scan(s + rest, p) == Scan(rest, p.(field := p.field + s))
  {
    if s == "" {
      assert s + rest == rest && p.field + s == p.field;
    } else {
      assert s[0] in s;
      var q := p.(field := p.field + [s[0]]);
      assert Plain(p, s[0]) == q;
      assert !NeedsQuotes(s[1..]) by { assert forall c :: c in s[1..] ==> c in s; }
      PlainScan(s[1..], rest, q);
      assert (s + rest)[1..] == s[1..] + rest && (s + rest)[0] == s[0];
      assert q.field + s[1..] == p.field + s;
    }
  }

  /** A printed field is read back whole. */
  lemma FieldScan(s: string, rest: string, p: Parser)
    requires !p.quoted && p.field == "" && (rest == "" || rest[0] != '"')
    ensures Scan(Escape(s) + rest, p) == Scan(rest, p.(field := s))
  {
    hide Doubled, NeedsQuotes;
    assert "" + s == s;
    if NeedsQuotes(s) {
      QuotedScan(s, rest, p.(quoted := true));
      var text := Escape(s) + rest;
      assert text == "\"" + (Doubled(s) + "\"" + rest);
      assert text[0] == '"' && text[1..] == Doubled(s) + "\"" + rest;
    } else {
      PlainScan(s, rest, p);
    }
  }

  /** How a line ends: the printer writes a line feed, other programs a carriage return before it. */
  function LineEnd(crlf: bool): string {
    if crlf then "\r\n" else "\n"
  }

  lemma EndScan(crlf: bool, rest: string, p: Parser)
    requires !p.quoted
    ensures LineEnd(crlf) + rest != "" && (LineEnd(crlf) + rest)[0] != '"'
    ensures Scan(LineEnd(crlf) + rest, p) ==
            Scan(rest, p.(rows := p.rows + [p.row + [p.field]], row := [], field := ""))
  {
    var s := LineEnd(crlf) + rest;
    if crlf {
      assert s[0] == '\r' && s[1..] == "\n" + rest && s[1..][0] == '\n' && s[1..][1..] == rest;
    } else {
      assert s[0] == '\n' && s[1..] == rest;
    }
  }

  /** A printed line is read back as its fields; a line without fields comes back as one empty field. */
  lemma {:induction false} LineScan(line: Line, crlf: bool, rest: string, p: Parser)
    requires !p.quoted && p.field == ""
    ensures Scan(JoinEscaped(line) + (LineEnd(crlf) + rest), p) ==
            Scan(rest, p.(rows := p.rows + [p.row + Shown(line)], row := []))
  {
    hide Escape, LineEnd;
    var tail := LineEnd(crlf) + rest;
    EndScan(crlf, rest, p);
    if line == [] {
      assert JoinEscaped(line) + tail == tail;
    } else if |line| == 1 {
      assert line == [line[0]];
      FieldScan(line[0], tail, p);
      EndScan(crlf, rest, p.(field := line[0]));
    } else {
      var more := "," + (JoinEscaped(line[1..]) + tail);
      assert JoinEscaped(line) + tail == Escape(line[0]) + more;
      assert more[0] == ',' && more[1..] == JoinEscaped(line[1..]) + tail;
      FieldScan(line[0], more, p);
      var q := p.(row := p.row + [line[0]]);
      LineScan(line[1..], crlf, rest, q);
      assert q.row + line[1..] == p.row + line;
    }
  }

  /** A line at the end of the text, without a line end, leaves its last field open. */
  lemma {:induction false} LastLineScan(line: Line, p: Parser)
    requires !p.quoted && p.field == ""
    ensures Scan(JoinEscaped(line), p) ==
      if line == [] then p else p.(row := p.row + line[..|line| - 1], field := line[|line| - 1])
  {
    hide Escape;
    if |line| == 1 {
      FieldScan(line[0], "", p);
      assert Escape(line[0]) + "" == Escape(line[0]) && p.row + [] == p.row;
    } else if |line| > 1 {
      var more := "," + JoinEscaped(line[1..]);
      assert JoinEscaped(line) == Escape(line[0]) + more;
      assert more[0] == ',' && more[1..] == JoinEscaped(line[1..]);
      FieldScan(line[0], more, p);
      var q := p.(row := p.row + [line[0]]);
      LastLineScan(line[1..], q);
      assert q.row + line[1..][..|line| - 2] == p.row + line[..|line| - 1];
    }
  }

  function Shown(line: Line): Line {
    if line == [] then [""] else line
  }

  function ShownLines(lines: seq<Line>): seq<Line> {
    if lines == [] then [] else [Shown(lines[0])] + ShownLines(lines[1..])
  }

  /** Lines as text, each with its own kind of line end, and whatever follows them. */
  function Text(lines: seq<Line>, crlf: seq<bool>, rest: string): string
    requires |crlf| == |lines|
  {
    if lines == [] then rest else JoinEscaped(lines[0]) + (LineEnd(crlf[0]) + Text(lines[1..], crlf[1..], rest))
  }

  lemma {:induction false} LinesScan(lines: seq<Line>, crlf: seq<bool>, rest: string, p: Parser)
    requires |crlf| == |lines| && !p.quoted && p.field == "" && p.row == []
    ensures Scan(Text(lines, crlf, rest), p) == Scan(rest, p.(rows := p.rows + ShownLines(lines)))
    decreases lines
  {
    hide Scan, JoinEscaped, LineEnd, Shown, ShownLines;
    ShownStep(lines);
    if lines == [] {
      assert p.rows + [] == p.rows;
    } else {
      var line, more := Shown(lines[0]), ShownLines(lines[1..]);
      LineScan(lines[0], crlf[0], Text(lines[1..], crlf[1..], rest), p);
      assert p.row + line == line;
      var q := p.(rows := p.rows + [line]);
      LinesScan(lines[1..], crlf[1..], rest, q);
      assert (p.rows + [line]) + more == p.rows + ([line] + more);
    }
  }

  lemma ShownStep(lines: seq<Line>)
    ensures ShownLines(lines) == if lines == [] then [] else [Shown(lines[0])] + ShownLines(lines[1..])
  {
  }

  /** The printer's text: every line ends with a line feed alone. */
  lemma {:induction false} PrintedText(lines: seq<Line>)
    ensures RenderLines(lines) == Text(lines, seq(|lines|, i => false), "")
  {
    if lines != [] {
      PrintedText(lines[1..]);
      var ends := seq(|lines|, i => false);
      assert ends[1..] == seq(|lines[1..]|, i => false);
      var more := RenderLines(lines[1..]);
      assert JoinEscaped(lines[0]) + "\n" + more == JoinEscaped(lines[0]) + ("\n" + more);
    }
  }

  /** A line that prints as nothing at all. */
  predicate Blank(line: Line) {
    line == [] || line == [""]
  }

  function WithoutBlank(lines: seq<Line>): seq<Line> {
    if lines == [] then []
    else if Blank(lines[0]) then WithoutBlank(lines[1..])
    else [lines[0]] + WithoutBlank(lines[1..])
  }

  lemma {:induction false} KeepShown(lines: seq<Line>)
    ensures KeepLines(ShownLines(lines)) == WithoutBlank(lines)
  {
    if lines != [] {
      KeepShown(lines[1..]);
      assert ShownLines(lines)[1..] == ShownLines(lines[1..]);
    }
  }

  lemma {:induction false} KeepSnoc(lines: seq<Line>, line: Line)
    ensures KeepLines(lines + [line]) == KeepLines(lines) + (if line == [""] then [] else [line])
  {
    if lines == [] {
      assert lines + [line] == [line] && [line][1..] == [];
      assert |line| == 1 && line[0] == "" <==> line == [""];
    } else {
      assert (lines + [line])[1..] == lines[1..] + [line] && (lines + [line])[0] == lines[0];
      KeepSnoc(lines[1..], line);
      var head := if |lines[0]| == 1 && lines[0][0] == "" then [] else [lines[0]];
      var tail := if line == [""] then [] else [line];
      assert head + (KeepLines(lines[1..]) + tail) == (head + KeepLines(lines[1..])) + tail;
    }
  }

  lemma {:induction false} WithoutBlankSnoc(lines: seq<Line>, line: Line)
    ensures WithoutBlank(lines + [line]) == WithoutBlank(lines) + (if Blank(line) then [] else [line])
  {
    if lines == [] {
      assert lines + [line] == [line] && [line][1..] == [];
    } else {
      assert (lines + [line])[1..] == lines[1..] + [line];
      WithoutBlankSnoc(lines[1..], line);
    }
  }

  /**
   Any lines, each ended by a line feed or by a carriage return and a line feed, and a last line that is
   ended by nothing, parse to those lines without the blank ones.
   */
  lemma AnyLineEnds(lines: seq<Line>, crlf: seq<bool>, last: Line)
    requires |crlf| == |lines|
    ensures Finish(Scan(Text(lines, crlf, JoinEscaped(last)), START)) == WithoutBlank(lines + [last])
  {
    hide Scan, Text, JoinEscaped, ShownLines, WithoutBlank, KeepLines;
    var shown := ShownLines(lines);
    var p := START.(rows := [] + shown);
    LinesScan(lines, crlf, JoinEscaped(last), START);
    LastLineScan(last, p);
    KeepShown(lines);
    WithoutBlankSnoc(lines, last);
    KeepSnoc(shown, last);
    FinishOpen(shown, last);
    assert [] + shown == shown;
  }

  /** The line left open at the end of the text counts, unless it is empty. */
  lemma FinishOpen(rows: seq<Line>, last: Line)
    ensures Finish(Parser(rows, [], "", false)) == KeepLines(rows)
    ensures last != [] ==>
      Finish(Parser(rows, [] + last[..|last| - 1], last[|last| - 1], false)) ==
        if last == [""] then KeepLines(rows) else KeepLines(rows + [last])
  {
    hide KeepLines;
    if last != [] {
      assert [] + last[..|last| - 1] + [last[|last| - 1]] == last;
      assert |last| == 1 ==> last == [last[0]];
    }
  }

  /** Parsing what was printed gives back every line, in order, except blank ones. */
  lemma RoundTrip(lines: seq<Line>)
    ensures Finish(Scan(RenderLines(lines), START)) == WithoutBlank(lines)
  {
    PrintedText(lines);
    AnyLineEnds(lines, seq(|lines|, i => false), []);
    WithoutBlankSnoc(lines, []);
    assert JoinEscaped([]) == "";
  }

  /** Quotes may open and close anywhere in a field; between them nothing is special. */
  lemma QuotesInside(s: string, q: string, rest: string, p: Parser)
    requires !p.quoted && !NeedsQuotes(s) && (rest == "" || rest[0] != '"')
    ensures Scan(s + ("\"" + (Doubled(q) + "\"" + rest)), p) == Scan(rest, p.(field := p.field + s + q))
  {
    var tail := "\"" + (Doubled(q) + "\"" + rest);
    PlainScan(s, tail, p);
    assert tail[0] == '"' && tail[1..] == Doubled(q) + "\"" + rest;
    QuotedScan(q, rest, p.(field := p.field + s, quoted := true));
  }

  /** Text that ends inside quotes: the field is what was read so far. */
  lemma {:induction false} UnclosedScan(s: string, p: Parser)
    requires p.quoted
    ensures Scan(Doubled(s), p) == p.(field := p.field + s)
  {
    if s == "" {
      assert p.field + "" == p.field;
    } else {
      var q := p.(field := p.field + [s[0]]);
      UnclosedScan(s[1..], q);
      assert q.field + s[1..] == p.field + s;
      assert Doubled(s)[if s[0] == '"' then 2 else 1..] == Doubled(s[1..]);
    }
  }

  lemma {:induction false} NothingBlank(lines: seq<Line>)
    requires forall i :: 0 <= i < |lines| ==> !Blank(lines[i])
    ensures WithoutBlank(lines) == lines
  {
    if lines != [] { NothingBlank(lines[1..]); }
  }

  lemma {:induction false} KeptOnlyIfNotBlank(lines: seq<Line>)
    ensures |WithoutBlank(lines)| <= |lines|
    ensures |WithoutBlank(lines)| == |lines| ==> forall i :: 0 <= i < |lines| ==> !Blank(lines[i])
  {
    if lines != [] { KeptOnlyIfNotBlank(lines[1..]); }
  }

  /**
   An exported result imports unchanged, NULL as the empty string, if and only if no line is blank:
   always with two columns or more, and otherwise when neither the column name nor a cell is empty.
   */
  lemma ExportImportIsLossless(columns: Line, rows: seq<seq<Option<string>>>)
    ensures var lines := Lines(columns, rows);
      Finish(Scan(RenderLines(lines), START)) == lines <==>
        || |columns| >= 2
        || (|columns| == 1 && columns[0] != ""
            && forall r :: 0 <= r < |rows| ==> rows[r] != [] && rows[r][0].Some? && rows[r][0].value != "")
    ensures var lines := Lines(columns, rows);
      && lines[0] == columns
      && forall r, i :: 0 <= r < |rows| && 0 <= i < |columns| ==>
           lines[r + 1][i] == if i < |rows[r]| && rows[r][i].Some? then rows[r][i].value else ""
  {
    var lines := Lines(columns, rows);
    RoundTrip(lines);
    hide RenderLines, Scan;
    assert lines[0] == columns;
    assert forall r :: 0 <= r < |rows| ==> lines[r + 1] == RowLine(columns, rows[r]);
    if forall i :: 0 <= i < |lines| ==> !Blank(lines[i]) {
      NothingBlank(lines);
      forall r | 0 <= r < |rows|
        ensures !Blank(RowLine(columns, rows[r]))
      {
        assert !Blank(lines[r + 1]);
      }
    } else {
      KeptOnlyIfNotBlank(lines);
    }
  }
}
