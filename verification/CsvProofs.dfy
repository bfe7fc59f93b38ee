/** What the CSV reader accepts, independently of how it reads. */
module CsvProofs {
  // What the CSV reader accepts, independently of how it reads: a text parses to some rows exactly
  // when it is a layout of those rows. The writer's text is one such layout, which gives the round trips.

  import opened Wrappers
  import opened Csv

  // Layouts: how a table may be written (RFC 4180, section 2)

  datatype Cell = Cell(value: string, inQuotes: bool)

  /** `ending` is the record end; the last record may have none. */
  datatype Line = Line(cells: seq<Cell>, ending: string)

  function CellText(c: Cell): string {
    if c.inQuotes then InQuotes(c.value) else c.value
  }

  /** Every cell of a line before the last, each with its comma. */
  function CellsText(cells: seq<Cell>): string {
    if cells == [] then "" else CellText(cells[0]) + "," + CellsText(cells[1..])
  }

  function LineText(cells: seq<Cell>): string
    requires cells != []
  {
    CellsText(cells[..|cells| - 1]) + CellText(cells[|cells| - 1])
  }

  function Values(cells: seq<Cell>): Row {
    seq(|cells|, j requires 0 <= j < |cells| => cells[j].value)
  }

  predicate CellsAreClean(cells: seq<Cell>) {
    forall c | c in cells :: !c.inQuotes ==> !NeedsQuotes(c.value)
  }

  predicate IsEnding(e: string) {
    e == "\n" || e == "\r\n" || e == "\r"
  }

  function LayoutText(lines: seq<Line>): string
    requires forall l | l in lines :: l.cells != []
  {
    if lines == [] then "" else LineText(lines[0].cells) + lines[0].ending + LayoutText(lines[1..])
  }

  /** Only the last record may lack its end, and a CR end is not followed by a LF that would join it. */
  predicate IsLayout(lines: seq<Line>) {
    && (forall l | l in lines :: l.cells != [] && CellsAreClean(l.cells))
    && (lines != [] ==>
          && IsLayout(lines[1..])
          && (IsEnding(lines[0].ending) || (lines[0].ending == "" && |lines| == 1))
          && (lines[0].ending == "\r" ==> !StartsWith(LayoutText(lines[1..]), '\n')))
  }

  predicate StartsWith(s: string, c: char) {
    s != "" && s[0] == c
  }

  /** The rows a layout stands for: an unended record that is one empty field is no record. */
  function RowsOf(lines: seq<Line>): seq<Row> {
    if lines == [] then []
    else if lines[0].ending == "" && Values(lines[0].cells) == [""] then []
    else [Values(lines[0].cells)] + RowsOf(lines[1..])
  }

  // Every layout parses to its rows

  /** What may follow a cell: nothing, a comma or a record end. */
  predicate EndsCell(rest: string) {
    rest == "" || rest[0] == ',' || IsBreak(rest[0])
  }

  lemma {:induction false} QuotedTextIsRead(v: string, rest: string, row: Row, field: string)
    requires EndsCell(rest)
    ensures Scan(Doubled(v) + ['"'] + rest, row, field, Quoted) == Scan(rest, row, field + v, Closed)
    decreases |v|
  {
    var s := Doubled(v) + ['"'] + rest;
    if v == "" {
      assert s[1..] == rest;
      assert field + v == field;
    } else {
      var left := Doubled(v[1..]) + ['"'] + rest;
      QuotedTextIsRead(v[1..], rest, row, field + [v[0]]);
      assert field + [v[0]] + v[1..] == field + v;
      if v[0] == '"' {
        assert s[..2] == ['"', '"'] && s[2..] == left;
      } else {
        assert s[0] == v[0] && s[1..] == left;
      }
    }
  }

  lemma {:induction false} PlainTextIsRead(v: string, rest: string, row: Row, field: string)
    requires !NeedsQuotes(v)
    ensures Scan(v + rest, row, field, Plain) == Scan(rest, row, field + v, Plain)
    decreases |v|
  {
    if v == "" {
      assert v + rest == rest && field + v == field;
    } else {
      assert !IsSpecial(v[0]);
      assert (v + rest)[0] == v[0] && (v + rest)[1..] == v[1..] + rest;
      assert !NeedsQuotes(v[1..]) by {
        assert forall i | 0 <= i < |v[1..]| :: v[1..][i] == v[i + 1];
      }
      PlainTextIsRead(v[1..], rest, row, field + [v[0]]);
      assert field + [v[0]] + v[1..] == field + v;
    }
  }

  /** At the end of a cell a plain and a closed field read on alike. */
  lemma {:induction false} CellIsRead(c: Cell, rest: string, row: Row)
    requires CellsAreClean([c]) && EndsCell(rest)
    ensures Scan(CellText(c) + rest, row, "", Plain) == Scan(rest, row, c.value, Plain)
  {
    assert "" + c.value == c.value;
    assert c in [c];
    if c.inQuotes {
      QuotedTextIsRead(c.value, rest, row, "");
      var s := CellText(c) + rest;
      assert s[0] == '"' && s[1..] == Doubled(c.value) + ['"'] + rest;
    } else {
      PlainTextIsRead(c.value, rest, row, "");
    }
  }

  lemma {:induction false} Regroup(a: string, b: string, c: string, d: string)
    ensures a + b + c + d == a + (b + (c + d))
  {
  }

  lemma {:induction false} OneMoreValue(row: Row, cells: seq<Cell>)
    requires cells != []
    ensures row + [cells[0].value] + Values(cells[1..]) == row + Values(cells)
  {
  }

  lemma {:induction false} CellsAreRead(cells: seq<Cell>, rest: string, row: Row)
    requires CellsAreClean(cells)
    ensures Scan(CellsText(cells) + rest, row, "", Plain) == Scan(rest, row + Values(cells), "", Plain)
    decreases |cells|
  {
    if cells == [] {
      assert CellsText(cells) + rest == rest && row + Values(cells) == row;
    } else {
      var more := CellsText(cells[1..]) + rest;
      Regroup(CellText(cells[0]), ",", CellsText(cells[1..]), rest);
      assert cells[0] in cells;
      CellIsRead(cells[0], "," + more, row);
      CommaIsRead(more, row, cells[0].value, Plain);
      CellsAreRead(cells[1..], rest, row + [cells[0].value]);
      OneMoreValue(row, cells);
    }
  }

  lemma {:induction false} CommaIsRead(rest: string, row: Row, field: string, mode: Mode)
    requires !mode.Quoted?
    ensures Scan("," + rest, row, field, mode) == Scan(rest, row + [field], "", Plain)
  {
    assert ("," + rest)[1..] == rest;
  }

  lemma {:induction false} BreakIsRead(ending: string, rest: string, row: Row, field: string, mode: Mode)
    requires !mode.Quoted? && IsEnding(ending) && (ending == "\r" ==> !StartsWith(rest, '\n'))
    ensures Scan(ending + rest, row, field, mode) == Before([row + [field]], Scan(rest, [], "", Plain))
  {
    var s := ending + rest;
    assert IsBreak(s[0]);
    assert AfterBreak(s) == rest;
  }

  lemma {:induction false} LastValue(cells: seq<Cell>)
    requires cells != []
    ensures Values(cells) == Values(cells[..|cells| - 1]) + [cells[|cells| - 1].value]
    ensures Values(cells) == [""] <==> Values(cells[..|cells| - 1]) == [] && cells[|cells| - 1].value == ""
  {
    assert |Values(cells)| == |cells| && |Values(cells[..|cells| - 1])| == |cells| - 1;
    if Values(cells) == [""] {
      assert Values(cells)[0] == "";
    }
  }

  lemma {:induction false} LineIsRead(cells: seq<Cell>, rest: string)
    requires cells != [] && CellsAreClean(cells) && (rest == "" || IsBreak(rest[0]))
    ensures Scan(LineText(cells) + rest, [], "", Plain)
         == Scan(rest, Values(cells[..|cells| - 1]), cells[|cells| - 1].value, Plain)
  {
    var front, last := cells[..|cells| - 1], cells[|cells| - 1];
    assert LineText(cells) + rest == CellsText(front) + (CellText(last) + rest);
    CellsAreRead(front, CellText(last) + rest, []);
    assert [] + Values(front) == Values(front);
    CellIsRead(last, rest, Values(front));
  }

  lemma {:induction false} LayoutIsRead(lines: seq<Line>)
    requires IsLayout(lines)
    ensures Scan(LayoutText(lines), [], "", Plain) == Success(RowsOf(lines))
    decreases |lines|
  {
    if lines != [] {
      var cells, ending, after := lines[0].cells, lines[0].ending, LayoutText(lines[1..]);
      assert lines[0] in lines;
      Regroup("", LineText(cells), ending, after);
      assert "" + LineText(cells) == LineText(cells);
      assert LayoutText(lines) == LineText(cells) + (ending + after);
      LineIsRead(cells, ending + after);
      LastValue(cells);
      var front, last := Values(cells[..|cells| - 1]), cells[|cells| - 1].value;
      if ending == "" {
        assert lines[1..] == [];
        assert ending + after == "";
        assert [front + [last]] + [] == [front + [last]];
      } else {
        LayoutIsRead(lines[1..]);
        BreakIsRead(ending, after, front, last, Plain);
      }
    }
  }

  // Every text that parses is a layout

  /** The part of the current cell that has been read. */
  function Begun(field: string, mode: Mode): string {
    match mode
    case Plain => field
    case Quoted => ['"'] + Doubled(field)
    case Closed => InQuotes(field)
  }

  lemma {:induction false} DoubledOneMore(s: string, c: char)
    ensures Doubled(s + [c]) == Doubled(s) + (if c == '"' then ['"', '"'] else [c])
    decreases |s|
  {
    if s == "" {
      assert s + [c] == [c];
      assert [c][1..] == "";
    } else {
      assert (s + [c])[1..] == s[1..] + [c];
      DoubledOneMore(s[1..], c);
    }
  }

  lemma {:induction false} CellsOneMore(cells: seq<Cell>, c: Cell)
    ensures CellsText(cells + [c]) == CellsText(cells) + CellText(c) + ","
    decreases |cells|
  {
    if cells == [] {
      assert cells + [c] == [c] && [c][1..] == [];
      assert CellText(c) + "," + "" == "" + CellText(c) + ",";
    } else {
      assert (cells + [c])[1..] == cells[1..] + [c];
      CellsOneMore(cells[1..], c);
      var first, more := CellText(cells[0]) + ",", CellsText(cells[1..]);
      assert first + (more + CellText(c) + ",") == first + more + CellText(c) + ",";
    }
  }

  /** The state of a scan: the cells it has ended and the one it is in. */
  predicate InLine(cells: seq<Cell>, field: string, mode: Mode) {
    CellsAreClean(cells) && (mode.Plain? ==> !NeedsQuotes(field))
  }

  /** The lines that `s` completes after `cells` and a begun cell. */
  ghost predicate Completes(lines: seq<Line>, s: string, cells: seq<Cell>, field: string, mode: Mode)
    requires Scan(s, Values(cells), field, mode).Success?
  {
    && IsLayout(lines)
    && LayoutText(lines) == CellsText(cells) + Begun(field, mode) + s
    && RowsOf(lines) == Scan(s, Values(cells), field, mode).value
  }

  /** One turn of the scan carries the lines over: the same text, the same rows. */
  lemma {:induction false} LayoutOf(s: string, cells: seq<Cell>, field: string, mode: Mode) returns (lines: seq<Line>)
    requires InLine(cells, field, mode)
    requires Scan(s, Values(cells), field, mode).Success?
    ensures Completes(lines, s, cells, field, mode)
    decreases |s|, 1
  {
    if s == "" {
      lines := LastLine(cells, field, mode);
    } else if mode.Quoted? {
      lines := LayoutInQuotes(s, cells, field);
    } else if s[0] == ',' {
      lines := LayoutAtComma(s, cells, field, mode);
    } else if IsBreak(s[0]) {
      lines := LayoutAtBreak(s, cells, field, mode);
    } else {
      assert mode == Plain;
      lines := LayoutInCell(s, cells, field);
    }
  }

  lemma {:induction false} LayoutInCell(s: string, cells: seq<Cell>, field: string) returns (lines: seq<Line>)
    requires s != "" && s[0] != ',' && !IsBreak(s[0]) && InLine(cells, field, Plain)
    requires Scan(s, Values(cells), field, Plain).Success?
    ensures Completes(lines, s, cells, field, Plain)
    decreases |s|, 0
  {
    if s[0] == '"' {
      lines := LayoutOf(s[1..], cells, "", Quoted);
      QuoteOpens(s, cells, field);
    } else {
      lines := LayoutOf(s[1..], cells, field + [s[0]], Plain);
      CharacterMoves(s, cells, field);
    }
  }

  lemma {:induction false} QuoteOpens(s: string, cells: seq<Cell>, field: string)
    requires s != "" && s[0] == '"' && Scan(s, Values(cells), field, Plain).Success?
    ensures Scan(s, Values(cells), field, Plain) == Scan(s[1..], Values(cells), "", Quoted)
    ensures CellsText(cells) + Begun(field, Plain) + s == CellsText(cells) + Begun("", Quoted) + s[1..]
  {
    assert Begun(field, Plain) + s == Begun("", Quoted) + s[1..];
    Moved(CellsText(cells), Begun(field, Plain), s, Begun("", Quoted), s[1..]);
  }

  lemma {:induction false} CharacterMoves(s: string, cells: seq<Cell>, field: string)
    requires s != "" && s[0] != '"' && s[0] != ',' && !IsBreak(s[0])
    ensures Scan(s, Values(cells), field, Plain) == Scan(s[1..], Values(cells), field + [s[0]], Plain)
    ensures CellsText(cells) + Begun(field, Plain) + s == CellsText(cells) + Begun(field + [s[0]], Plain) + s[1..]
  {
    assert Begun(field, Plain) + s == Begun(field + [s[0]], Plain) + s[1..];
    Moved(CellsText(cells), Begun(field, Plain), s, Begun(field + [s[0]], Plain), s[1..]);
  }

  /** Characters of `s` that are one character of a quoted field, or 0 where the field closes. */
  function QuotedUnit(s: string): nat
    requires s != ""
  {
    if s[0] != '"' then 1 else if |s| > 1 && s[1] == '"' then 2 else 0
  }

  lemma {:induction false} LayoutInQuotes(s: string, cells: seq<Cell>, field: string) returns (lines: seq<Line>)
    requires s != "" && InLine(cells, field, Quoted)
    requires Scan(s, Values(cells), field, Quoted).Success?
    ensures Completes(lines, s, cells, field, Quoted)
    decreases |s|, 0
  {
    var unit := QuotedUnit(s);
    if unit == 0 {
      lines := LayoutOf(s[1..], cells, field, Closed);
      assert Begun(field, Quoted) + s == Begun(field, Closed) + s[1..];
      Moved(CellsText(cells), Begun(field, Quoted), s, Begun(field, Closed), s[1..]);
    } else {
      UnitIsRead(s, Values(cells), field);
      lines := LayoutOf(s[unit..], cells, field + [s[0]], Quoted);
      UnitMoves(s, field);
      Moved(CellsText(cells), Begun(field, Quoted), s, Begun(field + [s[0]], Quoted), s[unit..]);
    }
  }

  lemma {:induction false} UnitIsRead(s: string, row: Row, field: string)
    requires s != "" && QuotedUnit(s) > 0
    ensures Scan(s, row, field, Quoted) == Scan(s[QuotedUnit(s)..], row, field + [s[0]], Quoted)
  {
  }

  lemma {:induction false} UnitMoves(s: string, field: string)
    requires s != "" && QuotedUnit(s) > 0
    ensures Begun(field, Quoted) + s == Begun(field + [s[0]], Quoted) + s[QuotedUnit(s)..]
  {
    DoubledOneMore(field, s[0]);
    assert s == s[..QuotedUnit(s)] + s[QuotedUnit(s)..];
  }

  lemma {:induction false} Moved(before: string, a: string, b: string, c: string, d: string)
    requires a + b == c + d
    ensures before + a + b == before + c + d
  {
    assert before + a + b == before + (a + b);
    assert before + c + d == before + (c + d);
  }

  lemma {:induction false} LayoutAtComma(s: string, cells: seq<Cell>, field: string, mode: Mode)
    returns (lines: seq<Line>)
    requires s != "" && s[0] == ',' && InLine(cells, field, mode) && !mode.Quoted?
    requires Scan(s, Values(cells), field, mode).Success?
    ensures Completes(lines, s, cells, field, mode)
    decreases |s|, 0
  {
    var cell := Cell(field, mode.Closed?);
    assert "," + s[1..] == s;
    CommaIsRead(s[1..], Values(cells), field, mode);
    assert Values(cells + [cell]) == Values(cells) + [field];
    lines := LayoutOf(s[1..], cells + [cell], "", Plain);
    CellsOneMore(cells, cell);
    CommaMoved(CellsText(cells) + Begun(field, mode), s);
  }

  lemma {:induction false} CommaMoved(before: string, s: string)
    requires s != "" && s[0] == ','
    ensures before + s == before + "," + "" + s[1..]
  {
  }

  lemma {:induction false} EndingOf(s: string) returns (ending: string)
    requires s != "" && IsBreak(s[0])
    ensures IsEnding(ending) && s == ending + AfterBreak(s)
    ensures ending == "\r" ==> !StartsWith(AfterBreak(s), '\n')
  {
    ending := s[..|s| - |AfterBreak(s)|];
  }

  lemma {:induction false} LayoutAtBreak(s: string, cells: seq<Cell>, field: string, mode: Mode)
    returns (lines: seq<Line>)
    requires s != "" && IsBreak(s[0]) && InLine(cells, field, mode) && !mode.Quoted?
    requires Scan(s, Values(cells), field, mode).Success?
    ensures Completes(lines, s, cells, field, mode)
    decreases |s|, 0
  {
    var after := AfterBreak(s);
    var ending := EndingOf(s);
    BreakIsRead(ending, after, Values(cells), field, mode);
    assert Values([]) == [];
    var more := LayoutOf(after, [], "", Plain);
    assert CellsText([]) + Begun("", Plain) + after == after;
    lines := LineBefore(cells, Cell(field, mode.Closed?), ending, more);
    assert CellsText(cells) + Begun(field, mode) + (ending + after) == CellsText(cells) + Begun(field, mode) + s;
  }

  /** A line of `cells` and `last` put before the lines `more`. */
  lemma {:induction false} LineBefore(cells: seq<Cell>, last: Cell, ending: string, more: seq<Line>)
    returns (lines: seq<Line>)
    requires CellsAreClean(cells + [last]) && IsLayout(more) && (IsEnding(ending) || (ending == "" && more == []))
    requires ending == "\r" ==> !StartsWith(LayoutText(more), '\n')
    ensures IsLayout(lines)
    ensures LayoutText(lines) == CellsText(cells) + CellText(last) + (ending + LayoutText(more))
    ensures RowsOf(lines) == (if ending == "" && cells == [] && last.value == "" then []
                              else [Values(cells) + [last.value]] + RowsOf(more))
  {
    var all := cells + [last];
    lines := [Line(all, ending)] + more;
    assert lines[1..] == more;
    LastOfAll(cells, last);
    Regroup("", LineText(all), ending, LayoutText(more));
    assert "" + LineText(all) == LineText(all);
  }

  lemma {:induction false} LastOfAll(cells: seq<Cell>, last: Cell)
    ensures var all := cells + [last];
      && LineText(all) == CellsText(cells) + CellText(last)
      && Values(all) == Values(cells) + [last.value]
      && (Values(all) == [""] <==> cells == [] && last.value == "")
  {
    var all := cells + [last];
    assert all[..|all| - 1] == cells;
    LastValue(all);
    assert |Values(cells)| == |cells|;
  }

  lemma {:induction false} LastLine(cells: seq<Cell>, field: string, mode: Mode) returns (lines: seq<Line>)
    requires InLine(cells, field, mode)
    requires Scan("", Values(cells), field, mode).Success?
    ensures Completes(lines, "", cells, field, mode)
  {
    lines := LineBefore(cells, Cell(field, mode.Closed?), "", []);
    assert |Values(cells)| == |cells|;
    assert CellsText(cells) + Begun(field, mode) + "" == CellsText(cells) + Begun(field, mode) + ("" + LayoutText([]));
  }

  /** A text parses to exactly those rows of which it is, after its byte-order mark, a layout. */
  lemma {:induction false} ParsesExactlyTheLayouts(text: string, rows: seq<Row>)
    ensures Parse(text) == Success(rows)
       <==> exists lines :: IsLayout(lines) && LayoutText(lines) == Source(text) && RowsOf(lines) == rows
  {
    if Parse(text) == Success(rows) {
      assert Values([]) == [];
      var lines := LayoutOf(Source(text), [], "", Plain);
      assert LayoutText(lines) == Source(text);
    }
    if lines :| IsLayout(lines) && LayoutText(lines) == Source(text) && RowsOf(lines) == rows {
      LayoutIsRead(lines);
    }
  }
}
