/**
 * The stored JNE tables the tools share: locations, district mappings and districts. A table is the sequence of its rows;
 * ids are numbers that are never used twice. The unique keys are those of the database schema, and every mapping refers
 * to a stored location and a stored district. Reading the master joins each mapping with its code and its district.
 */
module JneDatabase {
  import opened Wrappers
  import opened JneMaster

  datatype Status = MATCHED | REVIEW_REQUIRED | AMBIGUOUS | NOT_FOUND

  datatype Location = Location(
    id: nat,
    code: string,
    kind: Kind,
    source: Source,
    rawName: string,
    isActive: bool,
    sourceFetchedAt: int,
    derived: DerivedName,
    createdAt: int,
    updatedAt: int)

  datatype Mapping = Mapping(
    id: nat,
    districtId: nat,
    locationId: nat,
    status: Status,
    isActive: bool,
    reviewedBy: Option<string>,
    notes: string,
    updatedAt: int)

  datatype District = District(id: nat, code: string, name: string, isActive: bool, cityActive: bool)

  datatype Db = Db(locations: seq<Location>, mappings: seq<Mapping>, districts: seq<District>, nextId: nat)

  // ------------------------------------------------------------- keys

  ghost predicate LocationKeys(rows: seq<Location>, nextId: nat) {
    && (forall i | 0 <= i < |rows| :: rows[i].id < nextId)
    && (forall i, j | 0 <= i < j < |rows| :: rows[i].id != rows[j].id)
    && (forall i, j | 0 <= i < j < |rows| :: rows[i].code != rows[j].code || rows[i].kind != rows[j].kind)
  }

  ghost predicate MappingKeys(rows: seq<Mapping>, nextId: nat) {
    && (forall i | 0 <= i < |rows| :: rows[i].id < nextId)
    && (forall i, j | 0 <= i < j < |rows| :: rows[i].id != rows[j].id)
    && (forall i, j | 0 <= i < j < |rows| :: rows[i].districtId != rows[j].districtId || rows[i].locationId != rows[j].locationId)
  }

  ghost predicate DistrictKeys(rows: seq<District>) {
    && (forall i, j | 0 <= i < j < |rows| :: rows[i].id != rows[j].id)
    && (forall i, j | 0 <= i < j < |rows| :: rows[i].code != rows[j].code)
  }

  function LocationById(rows: seq<Location>, id: nat): (r: Option<Location>)
    ensures r.Some? ==> r.value in rows && r.value.id == id
    ensures r.None? ==> forall i | 0 <= i < |rows| :: rows[i].id != id
  {
    if rows == [] then None
    else if rows[|rows| - 1].id == id then Some(rows[|rows| - 1])
    else LocationById(rows[..|rows| - 1], id)
  }

  function DistrictById(rows: seq<District>, id: nat): (r: Option<District>)
    ensures r.Some? ==> r.value in rows && r.value.id == id
    ensures r.None? ==> forall i | 0 <= i < |rows| :: rows[i].id != id
  {
    if rows == [] then None
    else if rows[|rows| - 1].id == id then Some(rows[|rows| - 1])
    else DistrictById(rows[..|rows| - 1], id)
  }

  /** Every mapping's district and location exist. */
  ghost predicate References(db: Db) {
    forall m | m in db.mappings ::
      LocationById(db.locations, m.locationId).Some? && DistrictById(db.districts, m.districtId).Some?
  }

  /** What the primary keys, unique keys and foreign keys of the schema guarantee. */
  ghost predicate WellFormed(db: Db) {
    && LocationKeys(db.locations, db.nextId)
    && MappingKeys(db.mappings, db.nextId)
    && DistrictKeys(db.districts)
    && References(db)
  }

  function LocationOf(db: Db, m: Mapping): Location
    requires LocationById(db.locations, m.locationId).Some?
  {
    LocationById(db.locations, m.locationId).value
  }

  function DistrictOf(db: Db, m: Mapping): District
    requires DistrictById(db.districts, m.districtId).Some?
  {
    DistrictById(db.districts, m.districtId).value
  }

  // ------------------------------------------------------------- what the master import reads

  datatype MappingView = MappingView(
    id: nat,
    status: Status,
    isActive: bool,
    districtCode: string,
    districtName: string,
    jneCode: string,
    kind: Kind)

  datatype MasterState = MasterState(existing: seq<Location>, mappings: seq<MappingView>)

  function View(db: Db, m: Mapping): MappingView
    requires LocationById(db.locations, m.locationId).Some? && DistrictById(db.districts, m.districtId).Some?
  {
    var d, l := DistrictOf(db, m), LocationOf(db, m);
    MappingView(m.id, m.status, m.isActive, d.code, d.name, l.code, l.kind)
  }

  /** The whole master, both kinds, plus every mapping with its code and district. */
  function ReadMasterState(db: Db): MasterState
    requires forall m | m in db.mappings ::
               LocationById(db.locations, m.locationId).Some? && DistrictById(db.districts, m.districtId).Some?
  {
    MasterState(db.locations, seq(|db.mappings|, i requires 0 <= i < |db.mappings| =>
      assert db.mappings[i] in db.mappings; View(db, db.mappings[i])))
  }

  lemma {:induction false} FoundById(rows: seq<Location>, i: nat)
    requires i < |rows| && forall j, k | 0 <= j < k < |rows| :: rows[j].id != rows[k].id
    ensures LocationById(rows, rows[i].id) == Some(rows[i])
  {
    if i < |rows| - 1 {
      FoundById(rows[..|rows| - 1], i);
    }
  }
}
