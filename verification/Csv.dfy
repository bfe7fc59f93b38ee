/** The CSV reader and writer of the mapping tools: the model of RFC 4180, section 2, that they share. */
module Csv {
  import opened Wrappers
  import Text

  datatype CsvError =
    | TEXT_AFTER_A_CLOSING_QUOTE
    | QUOTE_INSIDE_AN_UNQUOTED_FIELD
    | UNTERMINATED_QUOTED_FIELD
    | NO_HEADER
    | MISSING_COLUMNS(names: seq<string>)
    | FIELD_COUNT(record: nat)

  /** Where in a field the reader stands: `Closed` is just past its closing quote. */
  datatype Mode = Plain | Quoted | Closed

  type Row = seq<string>

  const BOM: char := '\U{FEFF}'

  predicate IsBreak(c: char) {
    c == '\n' || c == '\r'
  }

  predicate IsSpecial(c: char) {
    c == '"' || c == ',' || IsBreak(c)
  }

  /** The text without the byte-order mark it may begin with. */
  function Source(text: string): string {
    if text != "" && text[0] == BOM then text[1..] else text
  }

  /** What follows the record end that begins `s`: CR LF counts as one record end. */
  function AfterBreak(s: string): string
    requires s != ""
  {
    if s[0] == '\r' && |s| > 1 && s[1] == '\n' then s[2..] else s[1..]
  }

  /** `rows` before the rows of `rest`, if it has any. */
  function Before(rows: seq<Row>, rest: Result<seq<Row>, CsvError>): Result<seq<Row>, CsvError> {
    match rest
    case Success(more) => Success(rows + more)
    case Failure(e) => Failure(e)
  }

  /** The records that the reader still returns when `s` is left, inside a record that holds `row` and `field` so far. */
  function Scan(s: string, row: Row, field: string, mode: Mode): Result<seq<Row>, CsvError>
    decreases |s|
  {
    if s == "" then
      if mode.Quoted? then Failure(UNTERMINATED_QUOTED_FIELD)
      else if field != "" || row != [] then Success([row + [field]])
      else Success([])
    else if mode.Quoted? then
      if s[0] != '"' then Scan(s[1..], row, field + [s[0]], Quoted)
      else if |s| > 1 && s[1] == '"' then Scan(s[2..], row, field + ['"'], Quoted)
      else Scan(s[1..], row, field, Closed)
    else if mode.Closed? && s[0] != ',' && !IsBreak(s[0]) then Failure(TEXT_AFTER_A_CLOSING_QUOTE)
    else if s[0] == '"' then
      if field != "" then Failure(QUOTE_INSIDE_AN_UNQUOTED_FIELD) else Scan(s[1..], row, field, Quoted)
    else if s[0] == ',' then Scan(s[1..], row + [field], "", Plain)
    else if IsBreak(s[0]) then Before([row + [field]], Scan(AfterBreak(s), [], "", Plain))
    else Scan(s[1..], row, field + [s[0]], Plain)
  }

  function Parse(text: string): Result<seq<Row>, CsvError> {
    Scan(Source(text), [], "", Plain)
  }

  function ModeOf(quoted: bool, closed: bool): Mode {
    if quoted then Quoted else if closed then Closed else Plain
  }

  /** The reader's loop: one character a turn, with one character of lookahead. */
  method ParseCsv(text: string) returns (result: Result<seq<Row>, CsvError>)
    ensures result == Parse(text)
  {
    var src := Source(text);
    var rows: seq<Row>, row: Row, field := [], [], "";
    var quoted, closed := false, false;
    var i := 0;
    assert src[i..] == src;
    NothingBefore(Parse(text));
    while i < |src|
      invariant 0 <= i <= |src|
      invariant !(quoted && closed)
      invariant Parse(text) == Before(rows, Scan(src[i..], row, field, ModeOf(quoted, closed)))
    {
      var ch := src[i];
      ghost var left := src[i..];
      assert left[0] == ch && left[1..] == src[i + 1..];
      assert |left| > 1 ==> left[1] == src[i + 1] && left[2..] == src[i + 2..];
      if quoted {
        if ch == '"' {
          if i + 1 < |src| && src[i + 1] == '"' {
            field := field + ['"'];
            i := i + 1;
          } else {
            quoted, closed := false, true;
          }
        } else {
          field := field + [ch];
        }
      } else {
        if closed && ch != ',' && ch != '\n' && ch != '\r' {
          return Failure(TEXT_AFTER_A_CLOSING_QUOTE);
        }
        if ch == '"' {
          if field != "" {
            return Failure(QUOTE_INSIDE_AN_UNQUOTED_FIELD);
          }
          quoted := true;
        } else if ch == ',' {
          row, field, closed := row + [field], "", false;
        } else if ch == '\n' || ch == '\r' {
          if ch == '\r' && i + 1 < |src| && src[i + 1] == '\n' {
            i := i + 1;
          }
          BeforeTwice(rows, [row + [field]], Scan(AfterBreak(left), [], "", Plain));
          rows, row, field, closed := rows + [row + [field]], [], "", false;
        } else {
          field := field + [ch];
        }
      }
      i := i + 1;
    }
    if quoted {
      return Failure(UNTERMINATED_QUOTED_FIELD);
    }
    assert src[i..] == "";
    ghost var before := rows;
    if field != "" || row != [] {
      rows := rows + [row + [field]];
    }
    assert before + [] == before;
    return Success(rows);
  }

  lemma NothingBefore(rest: Result<seq<Row>, CsvError>)
    ensures Before([], rest) == rest
  {
    if rest.Success? {
      assert [] + rest.value == rest.value;
    }
  }

  lemma BeforeTwice(a: seq<Row>, b: seq<Row>, rest: Result<seq<Row>, CsvError>)
    ensures Before(a, Before(b, rest)) == Before(a + b, rest)
  {
    if rest.Success? {
      assert a + (b + rest.value) == a + b + rest.value;
    }
  }

  // The writer

  /** Every quote doubled. */
  function Doubled(s: string): string {
    if s == "" then ""
    else (if s[0] == '"' then ['"', '"'] else [s[0]]) + Doubled(s[1..])
  }

  predicate NeedsQuotes(s: string) {
    exists i | 0 <= i < |s| :: IsSpecial(s[i])
  }

  function InQuotes(s: string): string {
    ['"'] + Doubled(s) + ['"']
  }

  function EscapeField(s: string): string {
    if NeedsQuotes(s) then InQuotes(s) else s
  }

  /** The values of one row in header order; a column the row does not have is empty. */
  function RowValues(header: seq<string>, row: map<string, string>): Row {
    seq(|header|, j requires 0 <= j < |header| => if header[j] in row then row[header[j]] else "")
  }

  function EscapeAll(row: Row): seq<string> {
    seq(|row|, j requires 0 <= j < |row| => EscapeField(row[j]))
  }

  function RecordText(row: Row): string {
    Text.Join(EscapeAll(row), ",")
  }

  /** The header and the rows as one table of fields. */
  function Table(header: seq<string>, rows: seq<map<string, string>>): (t: seq<Row>)
    ensures |t| == |rows| + 1 && t[0] == header
    ensures forall i | 0 <= i < |rows| :: t[i + 1] == RowValues(header, rows[i])
  {
    [header] + seq(|rows|, i requires 0 <= i < |rows| => RowValues(header, rows[i]))
  }

  function RecordTexts(table: seq<Row>): seq<string> {
    seq(|table|, i requires 0 <= i < |table| => RecordText(table[i]))
  }

  function ToCsv(header: seq<string>, rows: seq<map<string, string>>): string {
    Text.Join(RecordTexts(Table(header, rows)), "\n") + "\n"
  }

  // The record reader

  predicate IsBlank(row: Row) {
    row == [""]
  }

  function DropBlank(rows: seq<Row>): (kept: seq<Row>)
    ensures |kept| <= |rows|
  {
    if rows == [] then []
    else if IsBlank(rows[|rows| - 1]) then DropBlank(rows[..|rows| - 1])
    else DropBlank(rows[..|rows| - 1]) + [rows[|rows| - 1]]
  }

  function Missing(required: seq<string>, header: seq<string>): seq<string> {
    if required == [] then []
    else (if required[0] in header then [] else [required[0]]) + Missing(required[1..], header)
  }

  /** Header names with the row's values; of a repeated name the last column wins. */
  function Keyed(header: seq<string>, row: Row): map<string, string>
    requires |header| == |row|
  {
    if header == [] then map[]
    else Keyed(header[..|header| - 1], row[..|row| - 1])[header[|header| - 1] := row[|row| - 1]]
  }

  /** The records of `rows`, or the 1-based number of the first one whose field count is not the header's. */
  function Records(header: seq<string>, rows: seq<Row>): Result<seq<map<string, string>>, CsvError> {
    if rows == [] then Success([])
    else
      var before := Records(header, rows[..|rows| - 1]);
      if before.Failure? then before
      else if |rows[|rows| - 1]| != |header| then Failure(FIELD_COUNT(|rows|))
      else Success(before.value + [Keyed(header, rows[|rows| - 1])])
  }

  function TrimAll(names: seq<string>): seq<string> {
    seq(|names|, j requires 0 <= j < |names| => Text.Trim(names[j]))
  }

  datatype Sheet = Sheet(header: seq<string>, records: seq<map<string, string>>)

  function SheetOf(kept: seq<Row>, required: seq<string>): Result<Sheet, CsvError> {
    if kept == [] then Failure(NO_HEADER)
    else
      var header := TrimAll(kept[0]);
      var missing := Missing(required, header);
      if missing != [] then Failure(MISSING_COLUMNS(missing))
      else
        match Records(header, kept[1..])
        case Failure(e) => Failure(e)
        case Success(records) => Success(Sheet(header, records))
  }

  function ParseRecords(text: string, required: seq<string>): Result<Sheet, CsvError> {
    match Parse(text)
    case Failure(e) => Failure(e)
    case Success(rows) => SheetOf(DropBlank(rows), required)
  }
}
