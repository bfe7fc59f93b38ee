/** What a captured JNE master contains. */
module JneMaster {
  // What a captured JNE master contains: every problem in it, and the rows that may be imported.
  // The derivation of the searchable name fields from a raw name is a parameter.

  import opened Wrappers
  import opened Json
  import Text

  datatype Kind = ORIGIN | DESTINATION

  datatype Source = SANDBOX | PRODUCTION

  datatype MasterRow = MasterRow(name: string, code: string)

  datatype DerivedName = DerivedName(normalizedName: string, parsedChild: string, parsedParent: Option<string>, partCount: nat)

  datatype Seed = Seed(
    code: string,
    rawName: string,
    derived: DerivedName,
    kind: Kind,
    source: Source,
    isActive: bool)

  /** Codes that are not real destinations, in any case and with any edge white space. */
  predicate IsTestCode(code: string) {
    Text.Upper(Text.Trim(code)) in {"TEST", "XXWWQEQ"}
  }

  /** Three upper-case letters and at least one digit. */
  predicate IsJneCode(code: string) {
    && |code| >= 4
    && Text.IsUpper(code[0]) && Text.IsUpper(code[1]) && Text.IsUpper(code[2])
    && Text.AllDigits(code[3..])
  }

  datatype InvalidReason =
    | NOT_AN_OBJECT
    | NO_CITY_NAME
    | NO_CITY_CODE
    | BLANK_CITY_NAME
    | BLANK_CITY_CODE
    | MALFORMED_CODE

  datatype InvalidRow = InvalidRow(row: nat, code: Option<string>, name: Option<string>, reason: InvalidReason)

  datatype Class = Invalid(reason: InvalidReason) | TestCode(code: string) | Importable(row: MasterRow)

  function Classify(entry: Json): (c: Class)
    ensures c.Importable? ==> IsJneCode(c.row.code) && !IsTestCode(c.row.code) && Code(entry) == Some(c.row.code)
  {
    if !IsObject(entry) then Invalid(NOT_AN_OBJECT)
    else
      match (TextField(entry, "City_Name"), TextField(entry, "City_Code"))
      case (None, _) => Invalid(NO_CITY_NAME)
      case (_, None) => Invalid(NO_CITY_CODE)
      case (Some(name), Some(code)) =>
        if Text.Trim(name) == "" then Invalid(BLANK_CITY_NAME)
        else if Text.Trim(code) == "" then Invalid(BLANK_CITY_CODE)
        else if IsTestCode(code) then TestCode(code)
        else if !IsJneCode(code) then Invalid(MALFORMED_CODE)
        else Importable(MasterRow(name, code))
  }

  /** The code an entry states, whatever else is wrong with the entry. */
  function Code(entry: Json): Option<string> {
    var code := TextField(entry, "City_Code");
    if code.Some? && Text.Trim(code.value) != "" then code else None
  }

  datatype Inspection = Inspection(
    records: nat,
    uniqueCodes: nat,
    rows: seq<MasterRow>,
    duplicates: map<string, seq<nat>>,
    invalid: seq<InvalidRow>,
    testCodes: seq<string>)

  /** Where each code is stated. */
  function Positions(entries: seq<Json>): (at: map<string, seq<nat>>)
    ensures forall c | c in at :: at[c] != []
  {
    if entries == [] then map[]
    else
      var row := |entries| - 1;
      var before := Positions(entries[..row]);
      match Code(entries[row])
      case None => before
      case Some(c) => before[c := (if c in before then before[c] else []) + [row]]
  }

  function InvalidRows(entries: seq<Json>): seq<InvalidRow> {
    if entries == [] then []
    else
      var row := |entries| - 1;
      InvalidRows(entries[..row]) +
      match Classify(entries[row])
      case Invalid(reason) =>
        [InvalidRow(row, TextField(entries[row], "City_Code"), TextField(entries[row], "City_Name"), reason)]
      case _ => []
  }

  function TestCodes(entries: seq<Json>): seq<string> {
    if entries == [] then []
    else
      var before := TestCodes(entries[..|entries| - 1]);
      match Classify(entries[|entries| - 1])
      case TestCode(code) => if code in before then before else before + [code]
      case _ => before
  }

  function Importables(entries: seq<Json>): seq<MasterRow> {
    if entries == [] then []
    else
      Importables(entries[..|entries| - 1]) +
      match Classify(entries[|entries| - 1]) case Importable(row) => [row] case _ => []
  }

  /** The rows whose code is stated exactly once. */
  function Unrepeated(rows: seq<MasterRow>, at: map<string, seq<nat>>): seq<MasterRow> {
    if rows == [] then []
    else
      var last := rows[|rows| - 1];
      Unrepeated(rows[..|rows| - 1], at) +
      if last.code in at && |at[last.code]| == 1 then [last] else []
  }

  function Repeated(at: map<string, seq<nat>>): map<string, seq<nat>> {
    map c | c in at && |at[c]| > 1 :: at[c]
  }

  function Inspect(entries: seq<Json>): Inspection {
    var at := Positions(entries);
    Inspection(|entries|, |at|, Unrepeated(Importables(entries), at), Repeated(at), InvalidRows(entries), TestCodes(entries))
  }

  datatype EnvelopeError = NotAnObject | NoDetail | EmptyDetail

  function InspectPayload(body: Json): Result<Inspection, EnvelopeError> {
    if !IsObject(body) then Failure(NotAnObject)
    else
      match ListField(body, "detail")
      case None => Failure(NoDetail)
      case Some(detail) => if detail == [] then Failure(EmptyDetail) else Success(Inspect(detail))
  }

  /** One pass over the entries, filling the four collections. */
  method InspectEntries(detail: seq<Json>) returns (i: Inspection)
    ensures i == Inspect(detail)
  {
    var positions: map<string, seq<nat>> := map[];
    var invalid, testCodes, rows := [], [], [];
    for row := 0 to |detail|
      invariant positions == Positions(detail[..row])
      invariant invalid == InvalidRows(detail[..row])
      invariant testCodes == TestCodes(detail[..row])
      invariant rows == Importables(detail[..row])
    {
      assert detail[..row + 1][..row] == detail[..row];
      var entry := detail[row];
      var code := Code(entry);
      if code.Some? {
        positions := positions[code.value := (if code.value in positions then positions[code.value] else []) + [row]];
      }
      match Classify(entry)
      case Invalid(reason) =>
        invalid := invalid + [InvalidRow(row, TextField(entry, "City_Code"), TextField(entry, "City_Name"), reason)];
      case TestCode(c) =>
        if c !in testCodes {
          testCodes := testCodes + [c];
        }
      case Importable(r) =>
        rows := rows + [r];
    }
    assert detail[..|detail|] == detail;
    i := Inspection(|detail|, |positions|, Unrepeated(rows, positions), Repeated(positions), invalid, testCodes);
  }

  method InspectJneMasterPayload(body: Json) returns (r: Result<Inspection, EnvelopeError>)
    ensures r == InspectPayload(body)
  {
    if !IsObject(body) {
      return Failure(NotAnObject);
    }
    var list := ListField(body, "detail");
    if list.None? {
      return Failure(NoDetail);
    }
    if list.value == [] {
      return Failure(EmptyDetail);
    }
    var inspection := InspectEntries(list.value);
    r := Success(inspection);
  }

  function ToSeed(r: MasterRow, kind: Kind, source: Source, derive: string -> DerivedName): Seed {
    Seed(r.code, r.name, derive(r.name), kind, source, !IsTestCode(r.code) && IsJneCode(r.code))
  }

  function ToSeeds(rows: seq<MasterRow>, kind: Kind, source: Source, derive: string -> DerivedName): seq<Seed> {
    seq(|rows|, i requires 0 <= i < |rows| => ToSeed(rows[i], kind, source, derive))
  }

  // ------------------------------------------------------------- what an import relies on

  ghost predicate DistinctCodes(seeds: seq<Seed>) {
    forall i, j | 0 <= i < j < |seeds| :: seeds[i].code != seeds[j].code
  }

  /** Seeds an import may write: of one kind and source, all active, every code once. */
  ghost predicate CleanSeeds(seeds: seq<Seed>, kind: Kind, source: Source) {
    && (forall s | s in seeds :: s.kind == kind && s.source == source && s.isActive)
    && DistinctCodes(seeds)
  }

  function Occurrences(rows: seq<MasterRow>, code: string): nat {
    if rows == [] then 0
    else Occurrences(rows[..|rows| - 1], code) + if rows[|rows| - 1].code == code then 1 else 0
  }

  lemma {:induction false} OccursTwice(rows: seq<MasterRow>, i: nat, j: nat)
    requires i < j < |rows| && rows[i].code == rows[j].code
    ensures Occurrences(rows, rows[i].code) >= 2
  {
    if j < |rows| - 1 {
      OccursTwice(rows[..|rows| - 1], i, j);
    } else {
      OccursOnce(rows[..j], i);
    }
  }

  lemma {:induction false} OccursOnce(rows: seq<MasterRow>, i: nat)
    requires i < |rows|
    ensures Occurrences(rows, rows[i].code) >= 1
  {
    if i < |rows| - 1 {
      OccursOnce(rows[..|rows| - 1], i);
    }
  }

  function Statements(at: map<string, seq<nat>>, code: string): nat {
    if code in at then |at[code]| else 0
  }

  lemma {:induction false} StatedOneMore(entries: seq<Json>, code: string)
    requires entries != []
    ensures var n := |entries| - 1;
            Statements(Positions(entries), code)
            == Statements(Positions(entries[..n]), code) + if Code(entries[n]) == Some(code) then 1 else 0
  {
  }

  lemma {:induction false} EveryRowIsStated(entries: seq<Json>, code: string)
    ensures Occurrences(Importables(entries), code) <= Statements(Positions(entries), code)
  {
    if entries != [] {
      var n := |entries| - 1;
      EveryRowIsStated(entries[..n], code);
      StatedOneMore(entries, code);
      var before := Importables(entries[..n]);
      match Classify(entries[n])
      case Importable(row) => OccursOneMore(before, row, code);
      case _ => assert before + [] == before;
    }
  }

  lemma {:induction false} OccursOneMore(before: seq<MasterRow>, row: MasterRow, code: string)
    ensures Occurrences(before + [row], code) == Occurrences(before, code) + if row.code == code then 1 else 0
  {
    assert (before + [row])[..|before|] == before;
  }

  lemma {:induction false} UnrepeatedRows(rows: seq<MasterRow>, at: map<string, seq<nat>>, code: string)
    ensures Occurrences(Unrepeated(rows, at), code) <= Occurrences(rows, code)
    ensures forall r | r in Unrepeated(rows, at) :: r in rows && r.code in at && |at[r.code]| == 1
  {
    if rows != [] {
      var n := |rows| - 1;
      UnrepeatedRows(rows[..n], at, code);
      var before := Unrepeated(rows[..n], at);
      assert (before + [rows[n]])[..|before|] == before;
      assert before + [] == before;
    }
  }

  lemma {:induction false} ImportablesAreCodes(entries: seq<Json>)
    ensures forall r | r in Importables(entries) :: IsJneCode(r.code) && !IsTestCode(r.code)
  {
    if entries != [] {
      ImportablesAreCodes(entries[..|entries| - 1]);
    }
  }

  ghost predicate DistinctRows(rows: seq<MasterRow>) {
    forall i, j | 0 <= i < j < |rows| :: rows[i].code != rows[j].code
  }

  lemma {:induction false} InspectedRow(entries: seq<Json>, i: nat)
    requires i < |Inspect(entries).rows|
    ensures var row := Inspect(entries).rows[i];
            IsJneCode(row.code) && !IsTestCode(row.code) && Occurrences(Inspect(entries).rows, row.code) <= 1
  {
    var row := Inspect(entries).rows[i];
    assert row in Inspect(entries).rows;
    UnrepeatedRows(Importables(entries), Positions(entries), row.code);
    EveryRowIsStated(entries, row.code);
    ImportablesAreCodes(entries);
  }

  lemma {:induction false} InspectedRowsAreDistinct(entries: seq<Json>)
    ensures DistinctRows(Inspect(entries).rows)
  {
    var rows := Inspect(entries).rows;
    forall i, j | 0 <= i < j < |rows|
      ensures rows[i].code != rows[j].code
    {
      InspectedRow(entries, i);
      if rows[i].code == rows[j].code {
        OccursTwice(rows, i, j);
      }
    }
  }

  lemma {:induction false} SeedsOfDistinctRows(rows: seq<MasterRow>, kind: Kind, source: Source,
                                               derive: string -> DerivedName)
    requires DistinctRows(rows)
    requires forall i | 0 <= i < |rows| :: IsJneCode(rows[i].code) && !IsTestCode(rows[i].code)
    ensures CleanSeeds(ToSeeds(rows, kind, source, derive), kind, source)
  {
    var seeds := ToSeeds(rows, kind, source, derive);
    assert forall i | 0 <= i < |rows| :: seeds[i].code == rows[i].code;
  }

  /** Every seed built from an inspection is active, and no code comes twice. */
  lemma {:induction false} InspectedSeedsAreClean(entries: seq<Json>, kind: Kind, source: Source,
                                                  derive: string -> DerivedName)
    ensures CleanSeeds(ToSeeds(Inspect(entries).rows, kind, source, derive), kind, source)
  {
    var rows := Inspect(entries).rows;
    InspectedRowsAreDistinct(entries);
    forall i | 0 <= i < |rows|
      ensures IsJneCode(rows[i].code) && !IsTestCode(rows[i].code)
    {
      InspectedRow(entries, i);
    }
    SeedsOfDistinctRows(rows, kind, source, derive);
  }

  lemma {:induction false} PositionsAreStatements(entries: seq<Json>, code: string)
    requires code in Positions(entries)
    ensures forall p | p in Positions(entries)[code] :: p < |entries| && Code(entries[p]) == Some(code)
    ensures forall p: nat | p < |entries| && Code(entries[p]) == Some(code) :: p in Positions(entries)[code]
  {
    var n := |entries| - 1;
    var before := Positions(entries[..n]);
    if code in before {
      PositionsAreStatements(entries[..n], code);
    } else {
      NotStated(entries[..n], code);
    }
  }

  lemma {:induction false} NotStated(entries: seq<Json>, code: string)
    requires code !in Positions(entries)
    ensures forall p: nat | p < |entries| :: Code(entries[p]) != Some(code)
  {
    if entries != [] {
      NotStated(entries[..|entries| - 1], code);
    }
  }

  lemma {:induction false} StatedCodesAreListed(entries: seq<Json>, p: nat)
    requires p < |entries| && Code(entries[p]).Some?
    ensures Code(entries[p]).value in Positions(entries)
  {
    if p < |entries| - 1 {
      StatedCodesAreListed(entries[..|entries| - 1], p);
    }
  }

  lemma {:induction false} TwoElements(s: seq<nat>, p: nat, q: nat)
    requires p in s && q in s && p != q
    ensures |s| > 1
  {
  }

  // ------------------------------------------------------------- the fate of every record

  predicate ReportsRow(invalid: seq<InvalidRow>, p: nat) {
    exists x | x in invalid :: x.row == p
  }

  lemma {:induction false} InvalidAt(entries: seq<Json>, p: nat)
    ensures ReportsRow(InvalidRows(entries), p) <==> p < |entries| && Classify(entries[p]).Invalid?
  {
    if entries != [] {
      var n := |entries| - 1;
      InvalidAt(entries[..n], p);
      var before := InvalidRows(entries[..n]);
      match Classify(entries[n])
      case Invalid(reason) =>
        var last := InvalidRow(n, TextField(entries[n], "City_Code"), TextField(entries[n], "City_Name"), reason);
        assert ReportsRow(before + [last], p) <==> ReportsRow(before, p) || p == n by {
          assert last in before + [last];
        }
      case _ => assert before + [] == before;
    }
  }

  lemma {:induction false} TestCodeAt(entries: seq<Json>, p: nat)
    requires p < |entries| && Classify(entries[p]).TestCode?
    ensures Classify(entries[p]).code in TestCodes(entries)
  {
    if p < |entries| - 1 {
      TestCodeAt(entries[..|entries| - 1], p);
    }
  }

  lemma {:induction false} ImportableAt(entries: seq<Json>, p: nat)
    requires p < |entries| && Classify(entries[p]).Importable?
    ensures Classify(entries[p]).row in Importables(entries)
  {
    if p < |entries| - 1 {
      ImportableAt(entries[..|entries| - 1], p);
    }
  }

  lemma {:induction false} KeptWhenUnrepeated(rows: seq<MasterRow>, at: map<string, seq<nat>>, row: MasterRow)
    requires row in rows
    ensures row in Unrepeated(rows, at) <==> row.code in at && |at[row.code]| == 1
  {
    var n := |rows| - 1;
    assert rows == rows[..n] + [rows[n]];
    UnrepeatedRows(rows, at, row.code);
    if row in rows[..n] {
      KeptWhenUnrepeated(rows[..n], at, row);
    }
  }

  datatype Fate = INVALID | TEST | IMPORTED | REPEATED

  /** What an inspection makes of the record at position `p`. */
  ghost predicate HasFate(i: Inspection, entries: seq<Json>, p: nat, fate: Fate)
    requires p < |entries|
  {
    var c := Classify(entries[p]);
    match fate
    case INVALID => ReportsRow(i.invalid, p)
    case TEST => c.TestCode? && c.code in i.testCodes
    case IMPORTED => c.Importable? && c.row in i.rows
    case REPEATED => c.Importable? && c.row.code in i.duplicates && p in i.duplicates[c.row.code]
  }

  function FateOf(entries: seq<Json>, p: nat): Fate
    requires p < |entries|
  {
    match Classify(entries[p])
    case Invalid(_) => INVALID
    case TestCode(_) => TEST
    case Importable(row) =>
      var at := Positions(entries);
      if row.code in at && |at[row.code]| > 1 then REPEATED else IMPORTED
  }

  /** Nothing vanishes: every record is exactly one of reported invalid, a test code, imported, or one of a repeated code. */
  lemma {:induction false} EveryRecordIsAccountedFor(entries: seq<Json>, p: nat, fate: Fate)
    requires p < |entries|
    ensures HasFate(Inspect(entries), entries, p, fate) <==> fate == FateOf(entries, p)
  {
    InvalidAt(entries, p);
    match Classify(entries[p])
    case Invalid(_) =>
    case TestCode(_) => TestCodeAt(entries, p);
    case Importable(row) => ImportableFate(entries, p);
  }

  lemma {:induction false} ImportableFate(entries: seq<Json>, p: nat)
    requires p < |entries| && Classify(entries[p]).Importable?
    ensures var row, at, i := Classify(entries[p]).row, Positions(entries), Inspect(entries);
            && row.code in at
            && (row in i.rows <==> |at[row.code]| == 1)
            && (row.code in i.duplicates && p in i.duplicates[row.code] <==> |at[row.code]| > 1)
  {
    var row := Classify(entries[p]).row;
    ImportableAt(entries, p);
    StatedCodesAreListed(entries, p);
    PositionsAreStatements(entries, row.code);
    KeptWhenUnrepeated(Importables(entries), Positions(entries), row);
  }

  /** A repeated code is reported with all its positions, and none of its rows is imported. */
  lemma {:induction false} RepeatedCodesAreReported(entries: seq<Json>, p: nat, q: nat)
    requires p < q < |entries| && Code(entries[p]).Some? && Code(entries[p]) == Code(entries[q])
    ensures var i := Inspect(entries);
            var code := Code(entries[p]).value;
            && code in i.duplicates && p in i.duplicates[code] && q in i.duplicates[code]
            && forall r | r in i.rows :: r.code != code
  {
    var code := Code(entries[p]).value;
    StatedCodesAreListed(entries, p);
    PositionsAreStatements(entries, code);
    TwoElements(Positions(entries)[code], p, q);
    UnrepeatedRows(Importables(entries), Positions(entries), code);
  }
}
