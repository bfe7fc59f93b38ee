/** The RajaOngkir acquisition protocol. */
module Acquisition {
  // The RajaOngkir acquisition protocol: what a response means, what a stored checkpoint
  // and artifact hold, and how one run walks its units. Everything a run reads from outside
  // (the transport, the clock) is a parameter.

  import opened Wrappers
  import opened Json
  import Text

  // ------------------------------------------------------------- destination rows

  /** A row the pool can identify. */
  predicate HasId(v: Json) {
    NumberField(v, "id").Some?
  }

  predicate AllHaveIds(rows: seq<Json>) {
    forall v | v in rows :: HasId(v)
  }

  function RowId(v: Json): real
    requires HasId(v)
  {
    NumberField(v, "id").value
  }

  predicate IsRow(v: Json) {
    && HasId(v)
    && TextField(v, "label").Some?
    && TextField(v, "province_name").Some?
    && TextField(v, "city_name").Some?
    && TextField(v, "district_name").Some?
    && TextField(v, "subdistrict_name").Some?
    && (Field(v, "zip_code") == Some(Null) || TextField(v, "zip_code").Some?)
  }

  datatype Destination = Destination(
    id: real,
    provinceName: Option<Json>,
    cityName: Option<Json>,
    districtName: Option<Json>,
    subdistrictName: Option<Json>,
    zipCode: Option<Json>)

  function ToDestination(v: Json): Destination
    requires HasId(v)
  {
    Destination(RowId(v), Field(v, "province_name"), Field(v, "city_name"), Field(v, "district_name"),
                Field(v, "subdistrict_name"), Field(v, "zip_code"))
  }

  function ToDestinations(rows: seq<Json>): seq<Destination>
    requires AllHaveIds(rows)
  {
    seq(|rows|, i requires 0 <= i < |rows| => ToDestination(rows[i]))
  }

  ghost function Ids(rows: seq<Json>): set<real>
    requires AllHaveIds(rows)
  {
    set v | v in rows :: RowId(v)
  }

  /** The first row of every id that is not yet in `seen`, in order. */
  function Dedup(rows: seq<Json>, seen: set<real>): (kept: seq<Json>)
    requires AllHaveIds(rows)
    ensures forall v | v in kept :: v in rows && RowId(v) !in seen
  {
    if rows == [] then []
    else if RowId(rows[0]) in seen then Dedup(rows[1..], seen)
    else [rows[0]] + Dedup(rows[1..], seen + {RowId(rows[0])})
  }

  // ------------------------------------------------------------- responses

  datatype FailureCategory =
    | RATE_LIMITED
    | AUTHENTICATION_FAILED
    | HTTP_ERROR
    | MALFORMED_RESPONSE
    | NETWORK_ERROR
    | INCOMPLETE_RESULT_SET
    | UNKNOWN_ERROR

  datatype Envelope = Rows(rows: seq<Json>) | ApiError(code: real) | Malformed

  function ValidateEnvelope(body: Json): (e: Envelope)
    ensures e.Rows? ==> forall v | v in e.rows :: IsRow(v)
  {
    match Field(body, "meta")
    case None => Malformed
    case Some(meta) =>
      match NumberField(meta, "code")
      case None => Malformed
      case Some(code) =>
        if code != 200.0 then ApiError(code)
        else
          match ListField(body, "data")
          case None => Malformed
          case Some(data) => if forall v | v in data :: IsRow(v) then Rows(data) else Malformed
  }

  const EMPTY_SEARCH_MESSAGE := "Domestic Destinations Data not found"

  /** The one 404 that means "this search matched nothing". */
  predicate IsEmptySearchResponse(status: int, body: Json) {
    && status == 404
    && IsObject(body)
    && (Field(body, "data").None? || Field(body, "data") == Some(Null))
    && Field(body, "meta").Some?
    && NumberField(Field(body, "meta").value, "code") == Some(404.0)
    && TextField(Field(body, "meta").value, "message").Some?
    && Text.Trim(TextField(Field(body, "meta").value, "message").value) == EMPTY_SEARCH_MESSAGE
  }

  function CategorizeHttp(status: real): FailureCategory {
    if status == 429.0 then RATE_LIMITED
    else if status == 401.0 || status == 403.0 then AUTHENTICATION_FAILED
    else if status >= 400.0 then HTTP_ERROR
    else UNKNOWN_ERROR
  }

  datatype AcquisitionUnit = AcquisitionUnit(key: string, searchTerm: string, limit: int)

  /** What the URL of one page asks for. */
  datatype Request = Request(searchTerm: string, limit: int, offset: int)

  datatype Answer = Threw | Response(status: int, body: Json)

  /** The transport: the answer to the n-th request of a run. */
  type Transcript = (nat, Request) -> Answer

  datatype PageOutcome =
    | Page(rows: seq<Json>, last: bool)
    | Refused(category: FailureCategory, httpStatus: Option<real>)

  /** How the page loop reads one answer, in the order its branches are tried. */
  function ReadAnswer(answer: Answer, limit: int): (p: PageOutcome)
    ensures p.Page? ==> forall v | v in p.rows :: IsRow(v)
  {
    match answer
    case Threw => Refused(NETWORK_ERROR, None)
    case Response(status, body) =>
      if IsEmptySearchResponse(status, body) then Page([], true)
      else if status != 200 then Refused(CategorizeHttp(status as real), Some(status as real))
      else
        match ValidateEnvelope(body)
        case ApiError(code) => Refused(CategorizeHttp(code), Some(code))
        case Malformed => Refused(MALFORMED_RESPONSE, Some(status as real))
        case Rows(rows) => Page(rows, |rows| < limit)
  }

  // ------------------------------------------------------------- what is stored

  datatype PageRecord = PageRecord(offset: int, rows: seq<Json>)

  function AllRows(pages: seq<PageRecord>): (rows: seq<Json>) {
    if pages == [] then [] else AllRows(pages[..|pages| - 1]) + pages[|pages| - 1].rows
  }

  predicate PagesHaveIds(pages: seq<PageRecord>) {
    forall p | p in pages :: AllHaveIds(p.rows)
  }

  function PageJson(page: PageRecord): Json {
    Obj(map["offset" := Num(page.offset as real), "rows" := Arr(page.rows)])
  }

  function OffsetsJson(pages: seq<PageRecord>): Json {
    Arr(seq(|pages|, i requires 0 <= i < |pages| => Num(pages[i].offset as real)))
  }

  function PagesJson(pages: seq<PageRecord>): Json {
    Arr(seq(|pages|, i requires 0 <= i < |pages| => PageJson(pages[i])))
  }

  function IdsJson(rows: seq<Json>): Json
    requires AllHaveIds(rows)
  {
    Arr(seq(|rows|, i requires 0 <= i < |rows| => Num(RowId(rows[i]))))
  }

  /** The one artifact of a completed unit; `rows` are its rows without repeated ids. */
  function ArtifactJson(u: AcquisitionUnit, pages: seq<PageRecord>, rows: seq<Json>): Json
    requires AllHaveIds(rows)
  {
    Obj(map[
      "key" := Str(u.key),
      "searchTerm" := Str(u.searchTerm),
      "limit" := Num(u.limit as real),
      "offsets" := OffsetsJson(pages),
      "pages" := PagesJson(pages),
      "candidateIds" := IdsJson(rows)])
  }

  datatype Checkpoint = Checkpoint(
    acquisitionId: string,
    completedUnits: seq<string>,
    failure: Option<Json>,
    updatedAt: string)

  const CHECKPOINT_VERSION := 1.0

  predicate IsResumable(v: Json) {
    && NumberField(v, "version") == Some(CHECKPOINT_VERSION)
    && TextField(v, "acquisitionId").Some?
    && ListField(v, "completedUnits").Some?
    && (forall u | u in ListField(v, "completedUnits").value :: u.Str?)
    && TextField(v, "updatedAt").Some?
  }

  function CheckpointJson(c: Checkpoint): Json {
    var units := Arr(seq(|c.completedUnits|, i requires 0 <= i < |c.completedUnits| => Str(c.completedUnits[i])));
    var fields := map[
      "version" := Num(CHECKPOINT_VERSION),
      "acquisitionId" := Str(c.acquisitionId),
      "completedUnits" := units,
      "updatedAt" := Str(c.updatedAt)];
    Obj(match c.failure case None => fields case Some(f) => fields["failure" := f])
  }

  /** The checkpoint a run continues from; absent when it has to start over. */
  function LoadCheckpoint(stored: Option<Json>): Option<Checkpoint> {
    match stored
    case None => None
    case Some(v) =>
      if !IsResumable(v) then None
      else
        var units := ListField(v, "completedUnits").value;
        Some(Checkpoint(
          TextField(v, "acquisitionId").value,
          seq(|units|, i requires 0 <= i < |units| => assert units[i] in units; units[i].text),
          Field(v, "failure"),
          TextField(v, "updatedAt").value))
  }

  function CategoryName(c: FailureCategory): string {
    match c
    case RATE_LIMITED => "RATE_LIMITED"
    case AUTHENTICATION_FAILED => "AUTHENTICATION_FAILED"
    case HTTP_ERROR => "HTTP_ERROR"
    case MALFORMED_RESPONSE => "MALFORMED_RESPONSE"
    case NETWORK_ERROR => "NETWORK_ERROR"
    case INCOMPLETE_RESULT_SET => "INCOMPLETE_RESULT_SET"
    case UNKNOWN_ERROR => "UNKNOWN_ERROR"
  }

  function FailureJson(u: string, category: FailureCategory, httpStatus: Option<real>, at: string): Json {
    var fields := map["unit" := Str(u), "category" := Str(CategoryName(category)), "at" := Str(at)];
    Obj(match httpStatus case None => fields case Some(s) => fields["httpStatus" := Num(s)])
  }

  /** Everything that survives a crash: the checkpoint file and one artifact per unit key. */
  datatype Disk = Disk(checkpoint: Option<Json>, raw: map<string, Json>)

  // ------------------------------------------------------------- one unit

  datatype WalkResult =
    | Exhausted(pages: seq<PageRecord>, requests: nat)
    | Halted(category: FailureCategory, httpStatus: Option<real>, requests: nat)

  /** The page loop, from the state in which `pages` are recorded and `k` requests were made. */
  function Walk(t: Transcript, u: AcquisitionUnit, maxPages: int, k: nat, offset: int, pages: seq<PageRecord>): WalkResult
    decreases if maxPages > |pages| then maxPages - |pages| else 0
  {
    if |pages| >= maxPages then Halted(INCOMPLETE_RESULT_SET, None, k)
    else
      match ReadAnswer(t(k, Request(u.searchTerm, u.limit, offset)), u.limit)
      case Refused(category, httpStatus) => Halted(category, httpStatus, k + 1)
      case Page(rows, last) =>
        var recorded := pages + [PageRecord(offset, rows)];
        if last then Exhausted(recorded, k + 1)
        else Walk(t, u, maxPages, k + 1, offset + u.limit, recorded)
  }

  lemma {:induction false} WalkKeepsIds(t: Transcript, u: AcquisitionUnit, maxPages: int, k: nat, offset: int,
                                        pages: seq<PageRecord>)
    requires PagesHaveIds(pages)
    ensures var w := Walk(t, u, maxPages, k, offset, pages); w.Exhausted? ==> PagesHaveIds(w.pages)
    decreases if maxPages > |pages| then maxPages - |pages| else 0
  {
    if |pages| < maxPages {
      var p := ReadAnswer(t(k, Request(u.searchTerm, u.limit, offset)), u.limit);
      if p.Page? && !p.last {
        WalkKeepsIds(t, u, maxPages, k + 1, offset + u.limit, pages + [PageRecord(offset, p.rows)]);
      }
    }
  }

  /** The page loop of a unit, from its first page. */
  function WalkUnit(t: Transcript, u: AcquisitionUnit, maxPages: int, k: nat): (w: WalkResult)
    ensures w.Exhausted? ==> PagesHaveIds(w.pages)
  {
    WalkKeepsIds(t, u, maxPages, k, 0, []);
    Walk(t, u, maxPages, k, 0, [])
  }

  datatype AcquiredUnit = AcquiredUnit(key: string, searchTerm: string, limit: real, offsets: Json, rows: seq<Json>)

  lemma {:induction false} AllRowsHaveIds(pages: seq<PageRecord>)
    requires PagesHaveIds(pages)
    ensures AllHaveIds(AllRows(pages))
  {
    if pages != [] {
      AllRowsHaveIds(pages[..|pages| - 1]);
    }
  }

  function UnitRows(pages: seq<PageRecord>): (rows: seq<Json>)
    requires PagesHaveIds(pages)
    ensures AllHaveIds(rows)
  {
    AllRowsHaveIds(pages);
    Dedup(AllRows(pages), {})
  }

  function Acquired(u: AcquisitionUnit, pages: seq<PageRecord>): AcquiredUnit
    requires PagesHaveIds(pages)
  {
    AcquiredUnit(u.key, u.searchTerm, u.limit as real, OffsetsJson(pages), UnitRows(pages))
  }

  // ------------------------------------------------------------- one run

  datatype RunOptions = RunOptions(acquisitionId: string, maxPages: int, now: string)

  /** A run as seen from outside: its result, and every state its storage passes through. */
  datatype Trace = Trace(
    stopped: bool,
    checkpoint: Checkpoint,
    requests: nat,
    skipped: nat,
    acquired: seq<AcquiredUnit>,
    disks: seq<Disk>)

  function After(disks: seq<Disk>, acquired: seq<AcquiredUnit>, skipped: nat, t: Trace): Trace {
    t.(disks := disks + t.disks, acquired := acquired + t.acquired, skipped := skipped + t.skipped)
  }

  function StoppedAt(u: AcquisitionUnit, category: FailureCategory, httpStatus: Option<real>, now: string,
                     c: Checkpoint): Checkpoint {
    c.(failure := Some(FailureJson(u.key, category, httpStatus, now)), updatedAt := now)
  }

  function Claimed(u: AcquisitionUnit, now: string, c: Checkpoint): Checkpoint {
    c.(completedUnits := c.completedUnits + [u.key], failure := None, updatedAt := now)
  }

  /** The unit loop over the units that are left. */
  function RunUnits(t: Transcript, units: seq<AcquisitionUnit>, o: RunOptions, done: set<string>,
                    c: Checkpoint, d: Disk, k: nat): Trace
    decreases |units|
  {
    if units == [] then Trace(false, c, k, 0, [], [])
    else
      var u := units[0];
      if u.key in done then After([], [], 1, RunUnits(t, units[1..], o, done, c, d, k))
      else
        match WalkUnit(t, u, o.maxPages, k)
        case Halted(category, httpStatus, requests) =>
          var stop := StoppedAt(u, category, httpStatus, o.now, c);
          Trace(true, stop, requests, 0, [], [d.(checkpoint := Some(CheckpointJson(stop)))])
        case Exhausted(pages, requests) =>
          var stored := d.(raw := d.raw[u.key := ArtifactJson(u, pages, UnitRows(pages))]);
          var claim := Claimed(u, o.now, c);
          var claimed := stored.(checkpoint := Some(CheckpointJson(claim)));
          After([stored, claimed], [Acquired(u, pages)], 0, RunUnits(t, units[1..], o, done, claim, claimed, requests))
  }

  /** What the run does with unit `i`, given that the units from `i` on are left. */
  lemma {:induction false} NextUnit(t: Transcript, units: seq<AcquisitionUnit>, o: RunOptions, done: set<string>,
                                    c: Checkpoint, d: Disk, k: nat, i: nat)
    requires i < |units|
    ensures var u := units[i];
            var r := RunUnits(t, units[i..], o, done, c, d, k);
            if u.key in done then r == After([], [], 1, RunUnits(t, units[i + 1..], o, done, c, d, k))
            else
              match WalkUnit(t, u, o.maxPages, k)
              case Halted(category, httpStatus, requests) =>
                var stop := StoppedAt(u, category, httpStatus, o.now, c);
                r == Trace(true, stop, requests, 0, [], [d.(checkpoint := Some(CheckpointJson(stop)))])
              case Exhausted(pages, requests) =>
                var stored := d.(raw := d.raw[u.key := ArtifactJson(u, pages, UnitRows(pages))]);
                var claimed := stored.(checkpoint := Some(CheckpointJson(Claimed(u, o.now, c))));
                r == After([stored, claimed], [Acquired(u, pages)], 0,
                           RunUnits(t, units[i + 1..], o, done, Claimed(u, o.now, c), claimed, requests))
  {
    assert units[i..][0] == units[i] && units[i..][1..] == units[i + 1..];
  }

  function StartCheckpoint(o: RunOptions, d: Disk): Checkpoint {
    match LoadCheckpoint(d.checkpoint)
    case Some(c) => c
    case None => Checkpoint(o.acquisitionId, [], None, o.now)
  }

  function KeySet(keys: seq<string>): set<string> {
    set k | k in keys
  }

  /** A whole run started on storage in state `d`. */
  function Run(t: Transcript, units: seq<AcquisitionUnit>, o: RunOptions, d: Disk): Trace {
    var c := StartCheckpoint(o, d);
    RunUnits(t, units, o, KeySet(c.completedUnits), c, d, 0)
  }

  /** Where a run can leave its storage: untouched, or after any of its writes. */
  function CrashPoints(t: Transcript, units: seq<AcquisitionUnit>, o: RunOptions, d: Disk): (disks: seq<Disk>)
    ensures |disks| > 0
  {
    [d] + Run(t, units, o, d).disks
  }

  // ------------------------------------------------------------- rebuilding the pool

  datatype ArtifactError = MissingArtifact(unitKey: string) | CorruptArtifact(unitKey: string)

  predicate PageIsUsable(page: Json) {
    && ListField(page, "rows").Some?
    && AllHaveIds(ListField(page, "rows").value)
  }

  function PageRows(page: Json): seq<Json> {
    match ListField(page, "rows") case None => [] case Some(rows) => rows
  }

  function PagesOf(pages: seq<Json>): seq<PageRecord> {
    seq(|pages|, i requires 0 <= i < |pages| => PageRecord(0, PageRows(pages[i])))
  }

  /** What a stored artifact gives back, or nothing when any part of it is not as written. */
  function ReadArtifact(key: string, raw: Json): (r: Option<AcquiredUnit>)
    ensures r.Some? ==> AllHaveIds(r.value.rows)
  {
    if !IsObject(raw) || TextField(raw, "searchTerm").None? || NumberField(raw, "limit").None?
       || ListField(raw, "offsets").None? || ListField(raw, "pages").None?
    then None
    else
      var pages := ListField(raw, "pages").value;
      if forall p | p in pages :: PageIsUsable(p) then
        assert PagesHaveIds(PagesOf(pages)) by {
          forall r | r in PagesOf(pages) ensures AllHaveIds(r.rows) {
            var i :| 0 <= i < |pages| && r == PagesOf(pages)[i];
            assert pages[i] in pages;
          }
        }
        Some(AcquiredUnit(key, TextField(raw, "searchTerm").value, NumberField(raw, "limit").value,
                          Field(raw, "offsets").value, UnitRows(PagesOf(pages))))
      else None
  }

  /** Every completed unit read back from storage, in checkpoint order; the first unusable one fails. */
  function Reconstruct(raw: map<string, Json>, keys: seq<string>): (r: Result<seq<AcquiredUnit>, ArtifactError>)
    ensures r.Success? ==> AllUnitsHaveIds(r.value)
    decreases |keys|
  {
    if keys == [] then Success([])
    else if keys[0] !in raw then Failure(MissingArtifact(keys[0]))
    else
      match ReadArtifact(keys[0], raw[keys[0]])
      case None => Failure(CorruptArtifact(keys[0]))
      case Some(u) =>
        match Reconstruct(raw, keys[1..])
        case Failure(e) => Failure(e)
        case Success(rest) => Success([u] + rest)
  }

  predicate AllUnitsHaveIds(acquired: seq<AcquiredUnit>) {
    forall u | u in acquired :: AllHaveIds(u.rows)
  }

  function UnitRowsInOrder(acquired: seq<AcquiredUnit>): (rows: seq<Json>)
    requires AllUnitsHaveIds(acquired)
    ensures AllHaveIds(rows)
  {
    if acquired == [] then [] else UnitRowsInOrder(acquired[..|acquired| - 1]) + acquired[|acquired| - 1].rows
  }

  /** The candidate pool: one destination per id, the first unit to list it wins. */
  function Pool(acquired: seq<AcquiredUnit>): seq<Destination>
    requires AllUnitsHaveIds(acquired)
  {
    ToDestinations(Dedup(UnitRowsInOrder(acquired), {}))
  }
}
