/** The offline transformer of administrative regions. */
module RegionTree {
  // The offline transformer of administrative regions: it reads a list of codes with names, and builds the tree of
  // provinces, cities, districts and villages in one pass over the sorted codes.

  import opened Wrappers
  import opened RegionCodes
  import Text

  datatype CityType = CITY | REGENCY

  datatype Village = Village(code: string, name: string, postalCode: Option<string>)

  datatype District = District(code: string, name: string, villages: seq<Village>)

  datatype City = City(code: string, name: string, kind: CityType, districts: seq<District>)

  datatype Province = Province(code: string, name: string, cities: seq<City>)

  datatype RegionError =
    | DUPLICATE_CODE(code: string)
    | EMPTY_NAME(code: string)
    | MALFORMED_CODE(code: string)
    | ORPHAN(code: string)
    | NO_DESIGNATION(code: string)
    | UNEXPECTED_LEVEL(code: string)
    | EMPTY_OR_PARTIAL

  // Reading the tables

  predicate IsWordChar(c: char) {
    Text.IsDigit(c) || 'A' <= c <= 'Z' || 'a' <= c <= 'z' || c == '_'
  }

  /** The first word of `name`, in any case, is `word`. */
  predicate BeginsWithWord(name: string, word: string) {
    |name| >= |word| && Text.Upper(name[..|word|]) == word && (|name| > |word| ==> !IsWordChar(name[|word|]))
  }

  function CityTypeOf(name: string): Option<CityType> {
    var trimmed := Text.Trim(name);
    if BeginsWithWord(trimmed, "KOTA") then Some(CITY)
    else if BeginsWithWord(trimmed, "KABUPATEN") then Some(REGENCY)
    else None
  }

  /** One parsed tuple of a table: a code and its value. */
  type Entry = (string, string)

  /** The codes in the order read, and the trimmed name of each. */
  datatype Regions = Regions(codes: seq<string>, names: map<string, string>)

  function ReadEntry(read: Regions, entry: Entry): Result<Regions, RegionError> {
    var (code, name) := entry;
    if code in read.names then Failure(DUPLICATE_CODE(code))
    else if Text.Trim(name) == "" then Failure(EMPTY_NAME(code))
    else if !IsCode(code) then Failure(MALFORMED_CODE(code))
    else Success(Regions(read.codes + [code], read.names[code := Text.Trim(name)]))
  }

  function RegionsOf(entries: seq<Entry>): Result<Regions, RegionError> {
    if entries == [] then Success(Regions([], map[]))
    else
      match RegionsOf(entries[..|entries| - 1])
      case Failure(e) => Failure(e)
      case Success(read) => ReadEntry(read, entries[|entries| - 1])
  }

  method ReadRegions(entries: seq<Entry>) returns (result: Result<Regions, RegionError>)
    ensures result == RegionsOf(entries)
  {
    var read := Regions([], map[]);
    for i := 0 to |entries|
      invariant RegionsOf(entries[..i]) == Success(read)
    {
      var (code, name) := entries[i];
      assert entries[..i + 1][..i] == entries[..i];
      if code in read.names || Text.Trim(name) == "" || !IsCode(code) {
        var refused := ReadEntry(read, entries[i]);
        RefusalIsFinal(entries, i);
        return refused;
      }
      read := Regions(read.codes + [code], read.names[code := Text.Trim(name)]);
    }
    assert entries[..|entries|] == entries;
    return Success(read);
  }

  lemma {:induction false} RefusalIsFinal(entries: seq<Entry>, i: nat)
    requires i < |entries| && RegionsOf(entries[..i + 1]).Failure?
    ensures RegionsOf(entries) == RegionsOf(entries[..i + 1])
    decreases |entries|
  {
    if i + 1 == |entries| {
      assert entries[..i + 1] == entries;
    } else {
      assert entries[..|entries| - 1][..i + 1] == entries[..i + 1];
      RefusalIsFinal(entries[..|entries| - 1], i);
    }
  }

  predicate IsPostalCode(value: string) {
    |value| == 5 && Text.AllDigits(value)
  }

  /** The well-formed postal codes; the last one given for a code counts. */
  function PostalOf(entries: seq<Entry>): map<string, string> {
    if entries == [] then map[]
    else
      var before, last := PostalOf(entries[..|entries| - 1]), entries[|entries| - 1];
      if IsPostalCode(Text.Trim(last.1)) then before[last.0 := Text.Trim(last.1)] else before
  }

  method ReadPostal(entries: seq<Entry>) returns (postal: map<string, string>)
    ensures postal == PostalOf(entries)
  {
    postal := map[];
    for i := 0 to |entries|
      invariant postal == PostalOf(entries[..i])
    {
      assert entries[..i + 1][..i] == entries[..i];
      var trimmed := Text.Trim(entries[i].1);
      if IsPostalCode(trimmed) {
        postal := postal[entries[i].0 := trimmed];
      }
    }
    assert entries[..|entries|] == entries;
  }

  // Placing one code

  function PostalFor(code: string, postal: map<string, string>): Option<string> {
    if code in postal then Some(postal[code]) else None
  }

  /** `village` added to every district that carries the code `parent`. */
  function ToDistricts(districts: seq<District>, parent: string, village: Village): seq<District> {
    seq(|districts|, k requires 0 <= k < |districts| =>
      if districts[k].code == parent then districts[k].(villages := districts[k].villages + [village]) else districts[k])
  }

  function ToCities(cities: seq<City>, parent: string, village: Village): seq<City> {
    seq(|cities|, j requires 0 <= j < |cities| =>
      cities[j].(districts := ToDistricts(cities[j].districts, parent, village)))
  }

  function AddVillage(forest: seq<Province>, parent: string, village: Village): seq<Province> {
    seq(|forest|, i requires 0 <= i < |forest| => forest[i].(cities := ToCities(forest[i].cities, parent, village)))
  }

  function WithDistrict(cities: seq<City>, parent: string, district: District): seq<City> {
    seq(|cities|, j requires 0 <= j < |cities| =>
      if cities[j].code == parent then cities[j].(districts := cities[j].districts + [district]) else cities[j])
  }

  function AddDistrict(forest: seq<Province>, parent: string, district: District): seq<Province> {
    seq(|forest|, i requires 0 <= i < |forest| => forest[i].(cities := WithDistrict(forest[i].cities, parent, district)))
  }

  function AddCity(forest: seq<Province>, parent: string, city: City): seq<Province> {
    seq(|forest|, i requires 0 <= i < |forest| =>
      if forest[i].code == parent then forest[i].(cities := forest[i].cities + [city]) else forest[i])
  }

  /** `code` put into the forest of the codes `placed` before it. */
  function Place(forest: seq<Province>, placed: seq<string>, code: string, name: string, postal: map<string, string>)
    : Result<seq<Province>, RegionError>
  {
    var level, parent := LevelOf(code), ParentOf(code);
    if level == 0 then Success(forest + [Province(code, name, [])])
    else if level > 3 then Failure(UNEXPECTED_LEVEL(code))
    else if parent !in placed then Failure(ORPHAN(code))
    else if level == 1 then
      match CityTypeOf(name)
      case None => Failure(NO_DESIGNATION(code))
      case Some(kind) => Success(AddCity(forest, parent, City(code, name, kind, [])))
    else if level == 2 then Success(AddDistrict(forest, parent, District(code, name, [])))
    else Success(AddVillage(forest, parent, Village(code, name, PostalFor(code, postal))))
  }

  function Build(codes: seq<string>, names: map<string, string>, postal: map<string, string>)
    : Result<seq<Province>, RegionError>
    requires forall c | c in codes :: c in names
  {
    if codes == [] then Success([])
    else
      var front, code := codes[..|codes| - 1], codes[|codes| - 1];
      match Build(front, names, postal)
      case Failure(e) => Failure(e)
      case Success(forest) => Place(forest, front, code, names[code], postal)
  }

  ghost predicate HasLevel(codes: seq<string>, level: nat) {
    exists c :: c in codes && LevelOf(c) == level
  }

  /** A region of every level. */
  ghost predicate IsComplete(codes: seq<string>) {
    HasLevel(codes, 0) && HasLevel(codes, 1) && HasLevel(codes, 2) && HasLevel(codes, 3)
  }

  function CodesOf(entries: seq<Entry>): (codes: seq<string>)
    ensures |codes| == |entries|
  {
    seq(|entries|, i requires 0 <= i < |entries| => entries[i].0)
  }
}
