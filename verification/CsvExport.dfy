/** The CSV text of `exportElectronicInvoicesCsv` (factus.service.ts) against a reader for
    section 2 of RFC 4180 that also accepts a bare line feed as record separator. */
module CsvExport {
  import opened Options

  type Row = seq<string>

  /** Columns of the exported table; every data row has as many cells. */
  const COLUMNS: nat := 22

  // ---------- Printer ----------

  predicate Special(c: char) { c == '"' || c == ',' || c == '\n' || c == '\r' }

  function DoubleQuotes(s: string): string {
    if s == "" then "" else (if s[0] == '"' then "\"\"" else [s[0]]) + DoubleQuotes(s[1..])
  }

  function Escape(s: string): string {
    if exists c <- s :: Special(c) then "\"" + DoubleQuotes(s) + "\"" else s
  }

  function PrintRow(row: Row): string {
    if row == [] then "" else if |row| == 1 then Escape(row[0]) else Escape(row[0]) + "," + PrintRow(row[1..])
  }

  function Print(rows: seq<Row>): string {
    if rows == [] then "" else if |rows| == 1 then PrintRow(rows[0]) else PrintRow(rows[0]) + "\n" + Print(rows[1..])
  }

  /** The export builds the text by joining cells and then lines. */
  method Export(rows: seq<Row>) returns (text: string)
    requires rows != []
    ensures text == Print(rows)
  {
    var lines: seq<string> := [];
    for i := 0 to |rows|
      invariant |lines| == i && forall k :: 0 <= k < i ==> lines[k] == PrintRow(rows[k])
    {
      lines := lines + [PrintRow(rows[i])];
    }
    var k := |lines| - 1;
    text := lines[k];
    while k > 0
      invariant 0 <= k < |rows| && text == Print(rows[k..])
    {
      k := k - 1;
      assert rows[k..][1..] == rows[k + 1..];
      text := lines[k] + "\n" + text;
    }
    assert rows[0..] == rows;
  }

  // ---------- Reader, written from the grammar ----------

  datatype Mode = FieldStart | Bare | Quoted | AfterQuote

  /** One character at a time; `row` holds the finished cells of the open record, `cell` the open cell.
      A final line break does not open another record. */
  function Read(s: string, mode: Mode, rows: seq<Row>, row: Row, cell: string): Option<seq<Row>>
    decreases |s|
  {
    if s == "" then
      if mode == Quoted then None
      else if mode == FieldStart && row == [] && rows != [] then Some(rows)
      else Some(rows + [row + [cell]])
    else if mode == Quoted then
      if s[0] == '"' then Read(s[1..], AfterQuote, rows, row, cell)
      else Read(s[1..], Quoted, rows, row, cell + [s[0]])
    else if s[0] == ',' then Read(s[1..], FieldStart, rows, row + [cell], "")
    else if s[0] == '\n' then Read(s[1..], FieldStart, rows + [row + [cell]], [], "")
    else if s[0] == '\r' then
      if |s| > 1 && s[1] == '\n' then Read(s[2..], FieldStart, rows + [row + [cell]], [], "") else None
    else if s[0] == '"' then
      if mode == FieldStart then Read(s[1..], Quoted, rows, row, "")
      else if mode == AfterQuote then Read(s[1..], Quoted, rows, row, cell + "\"")
      else None
    else if mode == AfterQuote then None
    else Read(s[1..], Bare, rows, row, cell + [s[0]])
  }

  function Parse(text: string): Option<seq<Row>> {
    Read(text, FieldStart, [], [], "")
  }

  // ---------- Round trip ----------

  /** Text that may follow a cell: nothing, a comma or a line feed. */
  predicate Delimited(rest: string) {
    rest == "" || rest[0] == ',' || rest[0] == '\n'
  }

  lemma {:induction false} ReadBare(s: string, mode: Mode, rows: seq<Row>, row: Row, cell: string, rest: string)
    requires s != "" && (mode == FieldStart ==> cell == "") && mode in {FieldStart, Bare} && Delimited(rest)
    requires forall c <- s :: !Special(c)
    ensures Read(s + rest, mode, rows, row, cell) == Read(rest, Bare, rows, row, cell + s)
    decreases |s|
  {
    assert (s + rest)[1..] == s[1..] + rest;
    assert !Special(s[0]);
    if |s| > 1 {
      ReadBare(s[1..], Bare, rows, row, cell + [s[0]], rest);
      assert cell + [s[0]] + s[1..] == cell + s;
    } else {
      assert s[1..] + rest == rest && cell + [s[0]] == cell + s;
    }
  }

  lemma {:induction false} ReadQuoted(s: string, rows: seq<Row>, row: Row, cell: string, rest: string)
    requires Delimited(rest)
    ensures Read(DoubleQuotes(s) + "\"" + rest, Quoted, rows, row, cell) == Read(rest, AfterQuote, rows, row, cell + s)
    decreases |s|
  {
    var text := DoubleQuotes(s) + "\"" + rest;
    if s == "" {
      assert text == "\"" + rest;
      assert text[1..] == rest && cell + s == cell;
    } else {
      ReadQuoted(s[1..], rows, row, cell + [s[0]], rest);
      assert cell + [s[0]] + s[1..] == cell + s;
      var tail := DoubleQuotes(s[1..]) + "\"" + rest;
      if s[0] == '"' {
        assert text == "\"\"" + tail;
        assert text[1..] == "\"" + tail && text[1..][1..] == tail;
      } else {
        assert text == [s[0]] + tail;
        assert text[1..] == tail;
      }
    }
  }

  /** How reading goes on once `row` ends with the cell just finished. */
  function Continue(rest: string, rows: seq<Row>, row: Row): Option<seq<Row>>
    requires Delimited(rest)
  {
    if rest == "" then Some(rows + [row])
    else if rest[0] == ',' then Read(rest[1..], FieldStart, rows, row, "")
    else Read(rest[1..], FieldStart, rows + [row], [], "")
  }

  lemma ReadDelimiter(rest: string, mode: Mode, rows: seq<Row>, row: Row, cell: string)
    requires Delimited(rest) && mode != Quoted
    requires mode == FieldStart && rest == "" ==> row != [] || rows == []
    ensures Read(rest, mode, rows, row, cell) == Continue(rest, rows, row + [cell])
  {
  }

  lemma ReadCell(s: string, rows: seq<Row>, row: Row, rest: string)
    requires Delimited(rest)
    requires s == "" && rest == "" ==> row != [] || rows == []
    ensures Read(Escape(s) + rest, FieldStart, rows, row, "") == Continue(rest, rows, row + [s])
  {
    assert "" + s == s;
    if exists c <- s :: Special(c) {
      ReadDelimiter(rest, AfterQuote, rows, row, s);
      ReadQuoted(s, rows, row, "", rest);
      OpenQuote(Escape(s) + rest, DoubleQuotes(s) + "\"" + rest, rows, row);
    } else if s != "" {
      ReadBare(s, FieldStart, rows, row, "", rest);
      ReadDelimiter(rest, Bare, rows, row, s);
    } else {
      assert Escape(s) + rest == rest;
      ReadDelimiter(rest, FieldStart, rows, row, s);
    }
  }

  lemma OpenQuote(text: string, tail: string, rows: seq<Row>, row: Row)
    requires text == "\"" + tail
    ensures Read(text, FieldStart, rows, row, "") == Read(tail, Quoted, rows, row, "")
  {
    assert text[1..] == tail;
  }

  lemma {:induction false} ReadRow(cells: Row, rows: seq<Row>, row: Row, rest: string)
    requires cells != [] && (rest == "" || rest[0] == '\n')
    requires rest == "" ==> row + cells != [""] || rows == []
    ensures Read(PrintRow(cells) + rest, FieldStart, rows, row, "") == Continue(rest, rows, row + cells)
    decreases |cells|
  {
    if |cells| == 1 {
      ReadCell(cells[0], rows, row, rest);
      assert row + [cells[0]] == row + cells;
    } else {
      var after := "," + (PrintRow(cells[1..]) + rest);
      assert PrintRow(cells) + rest == Escape(cells[0]) + after;
      ReadCell(cells[0], rows, row, after);
      assert after[1..] == PrintRow(cells[1..]) + rest;
      assert row + [cells[0]] + cells[1..] == row + cells;
      ReadRow(cells[1..], rows, row + [cells[0]], rest);
    }
  }

  predicate NoEmptyRow(rows: seq<Row>) {
    forall i :: 0 <= i < |rows| ==> rows[i] != []
  }

  lemma ReadLine(line: Row, tail: string, rows: seq<Row>)
    requires line != []
    ensures Read(PrintRow(line) + "\n" + tail, FieldStart, rows, [], "") ==
        Read(tail, FieldStart, rows + [line], [], "")
  {
    var after := "\n" + tail;
    assert PrintRow(line) + "\n" + tail == PrintRow(line) + after;
    assert [] + line == line && after[1..] == tail;
    ReadRow(line, rows, [], after);
  }

  lemma ReadLastLine(line: Row, rows: seq<Row>)
    requires line != [] && (line != [""] || rows == [])
    ensures Read(PrintRow(line), FieldStart, rows, [], "") == Some(rows + [line])
  {
    assert PrintRow(line) + "" == PrintRow(line) && [] + line == line;
    ReadRow(line, rows, [], "");
  }

  lemma {:induction false} ReadRows(more: seq<Row>, rows: seq<Row>)
    requires more != [] && NoEmptyRow(more)
    requires more[|more| - 1] != [""] || rows + more == [[""]]
    ensures Read(Print(more), FieldStart, rows, [], "") == Some(rows + more)
    decreases |more|
  {
    if |more| == 1 {
      assert rows == [] || more[0] != [""] by { assert rows + more == [[""]] ==> |rows + more| == 1; }
      ReadLastLine(more[0], rows);
      assert more == [more[0]];
    } else {
      ReadLine(more[0], Print(more[1..]), rows);
      ReadRows(more[1..], rows + [more[0]]);
      assert rows + [more[0]] + more[1..] == rows + more;
    }
  }

  lemma {:induction false} LastEmptyRowIsLost(more: seq<Row>, rows: seq<Row>)
    requires |more| > 1 && NoEmptyRow(more) && more[|more| - 1] == [""]
    ensures Read(Print(more), FieldStart, rows, [], "") == Some(rows + more[..|more| - 1])
    decreases |more|
  {
    ReadLine(more[0], Print(more[1..]), rows);
    if |more| == 2 {
      assert more[1..] == [[""]] && more[..1] == [more[0]];
      assert Print(more[1..]) == "";
    } else {
      LastEmptyRowIsLost(more[1..], rows + [more[0]]);
      assert rows + [more[0]] + more[1..][..|more| - 2] == rows + more[..|more| - 1];
    }
  }

  /** Reading the text back gives every cell of every row, whatever the cells contain. The one table
      shape that is lost is a last row holding a single empty cell, which the export never has. */
  lemma RoundTrip(rows: seq<Row>)
    requires rows != [] && NoEmptyRow(rows)
    ensures Parse(Print(rows)) == Some(rows) <==> rows[|rows| - 1] != [""] || |rows| == 1
  {
    if rows[|rows| - 1] != [""] || |rows| == 1 {
      assert [] + rows == rows;
      ReadRows(rows, []);
    } else {
      LastEmptyRowIsLost(rows, []);
      assert |[] + rows[..|rows| - 1]| != |rows|;
    }
  }

  /** The export: a header and data rows of the same width. */
  lemma ExportRoundTrip(header: Row, items: seq<Row>)
    requires |header| == COLUMNS && forall i :: 0 <= i < |items| ==> |items[i]| == COLUMNS
    ensures Parse(Print([header] + items)) == Some([header] + items)
  {
    RoundTrip([header] + items);
  }
}
