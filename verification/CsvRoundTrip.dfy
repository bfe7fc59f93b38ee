/** What the writer writes is what the reader reads back: exactly when, and with which header and records. */
module CsvRoundTrip {
  import opened Wrappers
  import opened Csv
  import opened CsvProofs
  import Text

  /** A table as the writer writes it, with any of the three record ends. */
  function Printed(table: seq<Row>, ending: string): string {
    if table == [] then "" else RecordText(table[0]) + ending + Printed(table[1..], ending)
  }

  // The writer's text is a layout

  function WriterCells(row: Row): (cells: seq<Cell>)
    ensures |cells| == |row| && CellsAreClean(cells) && Values(cells) == row
  {
    seq(|row|, j requires 0 <= j < |row| => Cell(row[j], NeedsQuotes(row[j])))
  }

  function WriterLines(table: seq<Row>, ending: string): seq<Line> {
    if table == [] then [] else [Line(WriterCells(table[0]), ending)] + WriterLines(table[1..], ending)
  }

  lemma {:induction false} RecordHead(row: Row)
    requires row != []
    ensures |row| == 1 ==> RecordText(row) == EscapeField(row[0])
    ensures |row| > 1 ==> RecordText(row) == EscapeField(row[0]) + "," + RecordText(row[1..])
  {
    assert EscapeAll(row)[1..] == EscapeAll(row[1..]);
  }

  lemma {:induction false} RecordIsALine(row: Row)
    requires row != []
    ensures RecordText(row) == LineText(WriterCells(row))
    decreases |row|
  {
    var cells := WriterCells(row);
    RecordHead(row);
    assert CellText(cells[0]) == EscapeField(row[0]);
    if |row| == 1 {
      LineOfOne(cells);
    } else {
      RecordIsALine(row[1..]);
      assert cells[1..] == WriterCells(row[1..]);
      LineHead(cells);
    }
  }

  lemma {:induction false} LineOfOne(cells: seq<Cell>)
    requires |cells| == 1
    ensures LineText(cells) == CellText(cells[0])
  {
    assert cells[..0] == [] && CellsText([]) == "";
    assert "" + CellText(cells[0]) == CellText(cells[0]);
  }

  lemma {:induction false} LineHead(cells: seq<Cell>)
    requires |cells| > 1
    ensures LineText(cells) == CellText(cells[0]) + "," + LineText(cells[1..])
  {
    var front, last := cells[..|cells| - 1], cells[|cells| - 1];
    assert front[1..] == cells[1..][..|cells| - 2];
    Regroup(CellText(cells[0]), ",", CellsText(front[1..]), CellText(last));
    Regroup("", CellText(cells[0]), ",", LineText(cells[1..]));
    assert "" + CellText(cells[0]) == CellText(cells[0]);
  }

  lemma {:induction false} LineStart(row: Row)
    requires row != []
    ensures !StartsWith(RecordText(row), '\n')
  {
    RecordHead(row);
    if !NeedsQuotes(row[0]) && row[0] != "" {
      assert !IsSpecial(row[0][0]);
    }
  }

  predicate RowsAreFull(table: seq<Row>) {
    forall i | 0 <= i < |table| :: table[i] != []
  }

  lemma {:induction false} RowsStart(table: seq<Row>, ending: string)
    requires IsEnding(ending) && RowsAreFull(table)
    ensures ending != "\n" ==> !StartsWith(Printed(table, ending), '\n')
  {
    if table != [] {
      LineStart(table[0]);
    }
  }

  lemma {:induction false} OneLineMore(row: Row, ending: string, rest: seq<Row>)
    ensures WriterLines([row] + rest, ending) == [Line(WriterCells(row), ending)] + WriterLines(rest, ending)
    ensures Printed([row] + rest, ending) == RecordText(row) + ending + Printed(rest, ending)
  {
    assert ([row] + rest)[1..] == rest;
  }

  lemma {:induction false} PrintedIsALayout(table: seq<Row>, ending: string)
    requires IsEnding(ending) && RowsAreFull(table)
    ensures IsLayout(WriterLines(table, ending))
    ensures LayoutText(WriterLines(table, ending)) == Printed(table, ending)
    ensures RowsOf(WriterLines(table, ending)) == table
    decreases |table|
  {
    if table != [] {
      var row, rest := table[0], table[1..];
      PrintedIsALayout(rest, ending);
      assert table == [row] + rest;
      OneLineMore(row, ending, rest);
      RecordIsALine(row);
      RowsStart(rest, ending);
      assert WriterLines(table, ending)[1..] == WriterLines(rest, ending);
    }
  }

  // The reader's rows have fields

  lemma {:induction false} LayoutRowsAreFull(lines: seq<Line>)
    requires IsLayout(lines)
    ensures RowsAreFull(RowsOf(lines))
    decreases |lines|
  {
    if lines != [] {
      LayoutRowsAreFull(lines[1..]);
      assert |Values(lines[0].cells)| == |lines[0].cells|;
    }
  }

  lemma {:induction false} ParsedRowsAreFull(text: string, rows: seq<Row>)
    requires Parse(text) == Success(rows)
    ensures RowsAreFull(rows)
  {
    ParsesExactlyTheLayouts(text, rows);
    var lines :| IsLayout(lines) && LayoutText(lines) == Source(text) && RowsOf(lines) == rows;
    LayoutRowsAreFull(lines);
  }

  // The round trip of tables

  /** The first field begins with a byte-order mark that no quote precedes. */
  predicate BeginsWithMark(table: seq<Row>) {
    table != [] && table[0] != [] && StartsWith(table[0][0], BOM) && !NeedsQuotes(table[0][0])
  }

  /** The writer puts a byte-order mark first only where the first field does. */
  lemma {:induction false} PrintedStart(table: seq<Row>, ending: string)
    requires IsEnding(ending) && RowsAreFull(table)
    ensures StartsWith(Printed(table, ending), BOM) <==> BeginsWithMark(table)
  {
    if table != [] {
      RecordHead(table[0]);
      Regroup("", RecordText(table[0]), ending, Printed(table[1..], ending));
      assert "" + RecordText(table[0]) == RecordText(table[0]);
      assert EscapeField("") == "";
    }
  }

  /** Without its mark the text is that of the table whose first field lost its first character. */
  lemma {:induction false} RecordLosesMark(row: Row)
    requires row != [] && row[0] != "" && row[0][0] == BOM && !NeedsQuotes(row[0])
    ensures RecordText(row) != "" && RecordText(row)[0] == BOM
    ensures RecordText(row)[1..] == RecordText(row[0 := row[0][1..]])
  {
    var field := row[0];
    var less := row[0 := field[1..]];
    assert !NeedsQuotes(field[1..]) by {
      assert forall i | 0 <= i < |field[1..]| :: field[1..][i] == field[i + 1];
    }
    RecordHead(row);
    RecordHead(less);
    assert row[1..] == less[1..];
  }

  lemma {:induction false} MarkIsLost(table: seq<Row>, ending: string) returns (read: seq<Row>)
    requires RowsAreFull(table) && BeginsWithMark(table)
    ensures RowsAreFull(read) && Source(Printed(table, ending)) == Printed(read, ending)
    ensures |read| == |table| && |read[0]| == |table[0]| && read[0][0] == table[0][0][1..]
  {
    var row := table[0];
    var less := row[0 := row[0][1..]];
    read := [less] + table[1..];
    RecordLosesMark(row);
    assert read[1..] == table[1..];
    var text := RecordText(row) + ending + Printed(table[1..], ending);
    assert text[1..] == RecordText(row)[1..] + ending + Printed(table[1..], ending);
  }

  /** A printed table parses to itself exactly when every row has a field and no bare byte-order mark comes first. */
  lemma {:induction false} PrintedTableParsesExactly(table: seq<Row>, ending: string)
    requires IsEnding(ending)
    ensures Parse(Printed(table, ending)) == Success(table) <==> RowsAreFull(table) && !BeginsWithMark(table)
  {
    var text := Printed(table, ending);
    if Parse(text) == Success(table) {
      ParsedRowsAreFull(text, table);
    }
    if RowsAreFull(table) {
      PrintedStart(table, ending);
      if BeginsWithMark(table) {
        var read := MarkIsLost(table, ending);
        PrintedIsALayout(read, ending);
        LayoutIsRead(WriterLines(read, ending));
        assert Parse(text) == Success(read);
        assert |read[0][0]| < |table[0][0]|;
      } else {
        PrintedIsALayout(table, ending);
        LayoutIsRead(WriterLines(table, ending));
      }
    }
  }

  /** Whatever the reader accepted, written again and read again, is the same, unless a mark comes first. */
  lemma {:induction false} RereadIsTheSame(text: string, rows: seq<Row>, ending: string)
    requires IsEnding(ending) && Parse(text) == Success(rows)
    ensures Parse(Printed(rows, ending)) == Parse(text) <==> !BeginsWithMark(rows)
  {
    ParsedRowsAreFull(text, rows);
    PrintedTableParsesExactly(rows, ending);
  }

  lemma {:induction false} JoinedIsPrinted(table: seq<Row>)
    requires table != []
    ensures Text.Join(RecordTexts(table), "\n") + "\n" == Printed(table, "\n")
    decreases |table|
  {
    var texts := RecordTexts(table);
    assert texts[1..] == RecordTexts(table[1..]);
    if |table| == 1 {
      assert Printed(table[1..], "\n") == "";
    } else {
      JoinedIsPrinted(table[1..]);
      Regroup(texts[0], "\n", Text.Join(texts[1..], "\n"), "\n");
      Regroup("", texts[0], "\n", Printed(table[1..], "\n"));
      assert "" + texts[0] == texts[0];
    }
  }

  /** What `toCsv` writes reads back as the header and the rows, field by field, exactly under a condition on the header. */
  lemma {:induction false} CsvRoundTrip(header: seq<string>, rows: seq<map<string, string>>)
    ensures Parse(ToCsv(header, rows)) == Success(Table(header, rows))
       <==> header != [] && !(StartsWith(header[0], BOM) && !NeedsQuotes(header[0]))
  {
    var table := Table(header, rows);
    JoinedIsPrinted(table);
    PrintedTableParsesExactly(table, "\n");
    TableIsFull(header, rows);
  }

  lemma {:induction false} TableIsFull(header: seq<string>, rows: seq<map<string, string>>)
    ensures RowsAreFull(Table(header, rows)) <==> header != []
  {
    var table := Table(header, rows);
    forall i | 0 <= i < |table|
      ensures |table[i]| == |header|
    {
      assert i > 0 ==> table[i - 1 + 1] == RowValues(header, rows[i - 1]);
    }
  }

  // The round trip of records

  /** The columns of the header, as the row fills them. */
  function Picked(header: seq<string>, row: map<string, string>): map<string, string> {
    map h | h in header :: if h in row then row[h] else ""
  }

  function PickedAll(header: seq<string>, rows: seq<map<string, string>>): seq<map<string, string>> {
    seq(|rows|, i requires 0 <= i < |rows| => Picked(header, rows[i]))
  }

  lemma {:induction false} KeyedPicks(header: seq<string>, row: map<string, string>)
    ensures Keyed(header, RowValues(header, row)) == Picked(header, row)
    decreases |header|
  {
    if header != [] {
      var front, last := header[..|header| - 1], header[|header| - 1];
      KeyedPicks(front, row);
      assert RowValues(header, row)[..|header| - 1] == RowValues(front, row);
      assert header == front + [last];
    }
  }

  lemma {:induction false} OneMoreRecord(header: seq<string>, rows: seq<Row>, row: Row, before: seq<map<string, string>>)
    requires Records(header, rows) == Success(before) && |row| == |header|
    ensures Records(header, rows + [row]) == Success(before + [Keyed(header, row)])
  {
    assert (rows + [row])[..|rows|] == rows;
  }

  lemma {:induction false} OneMoreRow(header: seq<string>, rows: seq<map<string, string>>)
    requires rows != []
    ensures Table(header, rows)[1..] == Table(header, rows[..|rows| - 1])[1..] + [RowValues(header, rows[|rows| - 1])]
  {
  }

  lemma {:induction false} RecordsArePicked(header: seq<string>, rows: seq<map<string, string>>)
    ensures Records(header, Table(header, rows)[1..]) == Success(PickedAll(header, rows))
    decreases |rows|
  {
    if rows == [] {
      assert Table(header, rows)[1..] == [];
      assert PickedAll(header, rows) == [];
    } else {
      var front, last := rows[..|rows| - 1], rows[|rows| - 1];
      OneMoreRow(header, rows);
      RecordsArePicked(header, front);
      OneMoreRecord(header, Table(header, front)[1..], RowValues(header, last), PickedAll(header, front));
      KeyedPicks(header, last);
      OneMorePicked(header, rows);
    }
  }

  lemma {:induction false} OneMorePicked(header: seq<string>, rows: seq<map<string, string>>)
    requires rows != []
    ensures PickedAll(header, rows) == PickedAll(header, rows[..|rows| - 1]) + [Picked(header, rows[|rows| - 1])]
  {
  }

  lemma {:induction false} NothingMissing(required: seq<string>, header: seq<string>)
    ensures Missing(required, header) == [] <==> forall h | h in required :: h in header
    decreases |required|
  {
    if required != [] {
      NothingMissing(required[1..], header);
      assert required == [required[0]] + required[1..];
    }
  }

  lemma {:induction false} BlankRowsAreDropped(rows: seq<Row>)
    ensures DropBlank(rows) == rows <==> [""] !in rows
    ensures [""] in rows ==> |DropBlank(rows)| < |rows|
    decreases |rows|
  {
    if rows != [] {
      BlankRowsAreDropped(rows[..|rows| - 1]);
      assert rows == rows[..|rows| - 1] + [rows[|rows| - 1]];
    }
  }

  lemma {:induction false} TrimEndLeaves(s: string)
    ensures |Text.TrimEnd(s)| <= |s| && Text.TrimEnd(s) == s[..|Text.TrimEnd(s)|]
    ensures Text.TrimEnd(s) == "" || !Text.IsSpace(Text.TrimEnd(s)[|Text.TrimEnd(s)| - 1])
    decreases |s|
  {
    if s != "" && Text.IsSpace(s[|s| - 1]) {
      TrimEndLeaves(s[..|s| - 1]);
    }
  }

  lemma {:induction false} TrimStartLeaves(s: string)
    ensures Text.TrimStart(s) == "" || !Text.IsSpace(Text.TrimStart(s)[0])
    decreases |s|
  {
    if s != "" && Text.IsSpace(s[0]) {
      TrimStartLeaves(s[1..]);
    }
  }

  lemma {:induction false} TrimTwice(s: string)
    ensures Text.Trim(Text.Trim(s)) == Text.Trim(s)
  {
    var inner := Text.TrimStart(s);
    TrimStartLeaves(s);
    TrimEndLeaves(inner);
    var once := Text.Trim(s);
    assert once != "" ==> once[0] == inner[0];
    assert Text.TrimStart(once) == once;
  }

  predicate IsTrimmed(header: seq<string>) {
    forall h | h in header :: Text.Trim(h) == h
  }

  /** The columns survive: two or more, or one that neither the header nor any row leaves empty. */
  predicate NoRecordIsBlank(header: seq<string>, rows: seq<map<string, string>>) {
    || |header| >= 2
    || (|header| == 1 && header[0] != "" && forall i | 0 <= i < |rows| :: RowValues(header, rows[i]) != [""])
  }

  lemma {:induction false} BlankRecords(header: seq<string>, rows: seq<map<string, string>>)
    requires header != []
    ensures NoRecordIsBlank(header, rows) <==> [""] !in Table(header, rows)
  {
    var table := Table(header, rows);
    if [""] in table {
      var i :| 0 <= i < |table| && table[i] == [""];
      assert i > 0 ==> table[i - 1 + 1] == RowValues(header, rows[i - 1]);
      assert |table[i]| == |header|;
    }
    assert header[0] == "" && |header| == 1 ==> table[0] == [""];
    if !NoRecordIsBlank(header, rows) && header[0] != "" {
      var i :| 0 <= i < |rows| && RowValues(header, rows[i]) == [""];
      assert table[i + 1] == [""];
    }
  }

  /** The records that one reading of what `toCsv` wrote must return. */
  function Expected(header: seq<string>, rows: seq<map<string, string>>): Result<Sheet, CsvError> {
    Success(Sheet(header, PickedAll(header, rows)))
  }

  lemma {:induction false} RecordsCount(header: seq<string>, rows: seq<Row>)
    ensures Records(header, rows).Success? ==> |Records(header, rows).value| == |rows|
    decreases |rows|
  {
    if rows != [] {
      RecordsCount(header, rows[..|rows| - 1]);
    }
  }

  lemma {:induction false} SheetHeaderIsTrimmed(text: string, required: seq<string>)
    requires ParseRecords(text, required).Success?
    ensures IsTrimmed(ParseRecords(text, required).value.header)
  {
    var kept := DropBlank(Parse(text).value);
    forall h | h in TrimAll(kept[0])
      ensures Text.Trim(h) == h
    {
      var j :| 0 <= j < |kept[0]| && h == Text.Trim(kept[0][j]);
      TrimTwice(kept[0][j]);
    }
  }

  /** A trimmed header name does not begin with a byte-order mark, which is white space. */
  lemma {:induction false} TrimmedHasNoMark(header: seq<string>, rows: seq<map<string, string>>)
    requires header != [] && IsTrimmed(header)
    ensures Parse(ToCsv(header, rows)) == Success(Table(header, rows))
  {
    CsvRoundTrip(header, rows);
    assert Text.Trim(header[0]) == header[0];
    TrimStartLeaves(header[0]);
    TrimEndLeaves(Text.TrimStart(header[0]));
  }

  lemma {:induction false} SheetHasColumns(text: string, required: seq<string>)
    requires ParseRecords(text, required).Success?
    ensures ParseRecords(text, required).value.header != []
  {
    var rows := Parse(text).value;
    ParsedRowsAreFull(text, rows);
    KeptAreParsed(rows);
    var first := DropBlank(rows)[0];
    assert first in rows;
    assert |TrimAll(first)| == |first|;
  }

  lemma {:induction false} KeptAreParsed(rows: seq<Row>)
    ensures forall r | r in DropBlank(rows) :: r in rows
    decreases |rows|
  {
    if rows != [] {
      KeptAreParsed(rows[..|rows| - 1]);
      assert rows == rows[..|rows| - 1] + [rows[|rows| - 1]];
    }
  }

  /** With a trimmed header the records come back exactly when none is blank and no required column is missing. */
  lemma {:induction false} TrimmedRecordsRoundTrip(header: seq<string>, rows: seq<map<string, string>>,
                                                   required: seq<string>)
    requires header != [] && IsTrimmed(header)
    ensures ParseRecords(ToCsv(header, rows), required) == Expected(header, rows)
       <==> NoRecordIsBlank(header, rows) && forall h | h in required :: h in header
  {
    var table := Table(header, rows);
    var kept := DropBlank(table);
    TrimmedHasNoMark(header, rows);
    BlankRecords(header, rows);
    BlankRowsAreDropped(table);
    NothingMissing(required, header);
    assert TrimAll(header) == header;
    if NoRecordIsBlank(header, rows) {
      RecordsArePicked(header, rows);
    } else if kept != [] {
      RecordsCount(TrimAll(kept[0]), kept[1..]);
      assert |PickedAll(header, rows)| == |rows|;
    }
  }

  /**
   * `parseCsvRecords` reads back the header and every record that `toCsv` wrote exactly when every name is trimmed, no
   * required one is missing and no record is blank, as none is with two or more columns.
   */
  lemma {:induction false} RecordsRoundTripExactly(header: seq<string>, rows: seq<map<string, string>>,
                                                   required: seq<string>)
    ensures ParseRecords(ToCsv(header, rows), required) == Expected(header, rows)
       <==> && IsTrimmed(header)
            && NoRecordIsBlank(header, rows)
            && forall h | h in required :: h in header
  {
    if ParseRecords(ToCsv(header, rows), required).Success? {
      SheetHasColumns(ToCsv(header, rows), required);
      SheetHeaderIsTrimmed(ToCsv(header, rows), required);
    }
    if header != [] && IsTrimmed(header) {
      TrimmedRecordsRoundTrip(header, rows, required);
    }
  }
}
