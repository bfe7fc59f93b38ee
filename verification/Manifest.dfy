/** Reviewed mapping manifests: decisions and transaction. */
module Manifest {
  // Reviewed mapping manifests: the decision for every row, and the transaction that writes the accepted
  // ones as candidates. Rows are decided in the order given.

  import opened Wrappers
  import opened JneMaster
  import opened JneDatabase
  import opened MasterPlan
  import opened MasterImport
  import Text

  datatype ManifestEntry = ManifestEntry(
    record: nat,
    districtCode: string,
    jneCode: string,
    confidence: string,
    sourceDataset: string,
    sourceVersion: string,
    evidence: string,
    rationale: string)

  const RATIONALE_MIN := 20

  datatype RejectReason =
    | MALFORMED_ROW
    | INVALID_CONFIDENCE
    | MISSING_PROVENANCE
    | RATIONALE_TOO_SHORT
    | DUPLICATE_ROW
    | CONFLICTING_ROWS
    | UNKNOWN_DISTRICT
    | INACTIVE_DISTRICT
    | JNE_CODE_NOT_IN_MASTER
    | JNE_CODE_ORIGIN_ONLY
    | JNE_LOCATION_INACTIVE
    | JNE_SOURCE_NOT_ALLOWED
    | APPROVED_FOR_DIFFERENT_CODE
    | PENDING_FOR_DIFFERENT_CODE
    | EXISTING_ROW_NOT_REUSABLE

  datatype NoopReason = ALREADY_PENDING | ALREADY_APPROVED

  datatype CandidateWrite = CandidateWrite(districtId: nat, locationId: nat, entry: ManifestEntry)

  datatype Outcome = Accept(write: CandidateWrite) | Noop(noop: NoopReason) | Reject(reason: RejectReason)

  // ------------------------------------------------------------- shape

  /** NN.NN.NN */
  predicate IsDistrictCode(s: string) {
    && |s| == 8
    && s[2] == '.' && s[5] == '.'
    && Text.AllDigits(s[..2]) && Text.AllDigits(s[3..5]) && Text.AllDigits(s[6..])
  }

  /** AAA99999 */
  predicate IsDestinationCode(s: string) {
    |s| == 8 && (forall i | 0 <= i < 3 :: Text.IsUpper(s[i])) && Text.AllDigits(s[3..])
  }

  function ShapeProblem(e: ManifestEntry): Option<RejectReason> {
    if !IsDistrictCode(e.districtCode) || !IsDestinationCode(e.jneCode) then Some(MALFORMED_ROW)
    else if e.confidence !in {"STRONG", "HIGH", "MEDIUM", "MANUAL"} then Some(INVALID_CONFIDENCE)
    else if e.sourceDataset == "" || e.sourceVersion == "" || e.evidence == "" then Some(MISSING_PROVENANCE)
    else if |e.rationale| < RATIONALE_MIN then Some(RATIONALE_TOO_SHORT)
    else None
  }

  // ------------------------------------------------------------- what is stored

  function DistrictByCode(rows: seq<District>, code: string): (r: Option<District>)
    ensures r.Some? ==> r.value in rows && r.value.code == code
    ensures r.None? ==> forall d | d in rows :: d.code != code
  {
    if rows == [] then None
    else if rows[|rows| - 1].code == code then Some(rows[|rows| - 1])
    else DistrictByCode(rows[..|rows| - 1], code)
  }

  /** The first mapping of a district and location. */
  function PairOf(rows: seq<Mapping>, districtId: nat, locationId: nat): (r: Option<Mapping>)
    ensures r.Some? ==> r.value in rows && r.value.districtId == districtId && r.value.locationId == locationId
    ensures r.None? ==> forall m | m in rows :: m.districtId != districtId || m.locationId != locationId
  {
    if rows == [] then None
    else if rows[0].districtId == districtId && rows[0].locationId == locationId then Some(rows[0])
    else PairOf(rows[1..], districtId, locationId)
  }

  /** The district resolves: an active MATCHED mapping to another location. */
  predicate ApprovedElsewhere(rows: seq<Mapping>, districtId: nat, locationId: nat) {
    exists m | m in rows :: m.districtId == districtId && m.status == MATCHED && m.isActive && m.locationId != locationId
  }

  predicate PendingElsewhere(rows: seq<Mapping>, districtId: nat, locationId: nat) {
    exists m | m in rows :: m.districtId == districtId && m.status == REVIEW_REQUIRED && m.locationId != locationId
  }

  predicate ListedAsOrigin(rows: seq<Location>, code: string) {
    exists l | l in rows :: l.code == code && l.kind == ORIGIN
  }

  // ------------------------------------------------------------- the decision

  function CodesOf(entries: seq<ManifestEntry>, districtCode: string): set<string> {
    set e | e in entries && e.districtCode == districtCode :: e.jneCode
  }

  predicate Conflicts(entries: seq<ManifestEntry>, e: ManifestEntry) {
    |CodesOf(entries, e.districtCode)| > 1
  }

  /** What the stored mappings of district `d` say about giving it location `l`. */
  function DecidePair(rows: seq<Mapping>, e: ManifestEntry, d: District, l: Location): Outcome {
    var pair := PairOf(rows, d.id, l.id);
    if pair.Some? && pair.value.status == MATCHED && pair.value.isActive then Noop(ALREADY_APPROVED)
    else if ApprovedElsewhere(rows, d.id, l.id) then Reject(APPROVED_FOR_DIFFERENT_CODE)
    else if pair.Some? && pair.value.status == REVIEW_REQUIRED && pair.value.isActive then Noop(ALREADY_PENDING)
    else if PendingElsewhere(rows, d.id, l.id) then Reject(PENDING_FOR_DIFFERENT_CODE)
    else if pair.Some? then Reject(EXISTING_ROW_NOT_REUSABLE)
    else Accept(CandidateWrite(d.id, l.id, e))
  }

  function DecideTarget(db: Db, e: ManifestEntry, allowed: set<Source>): Outcome {
    match DistrictByCode(db.districts, e.districtCode)
    case None => Reject(UNKNOWN_DISTRICT)
    case Some(d) =>
      if !d.isActive || !d.cityActive then Reject(INACTIVE_DISTRICT)
      else
        match Existing(db.locations, DESTINATION, e.jneCode)
        case None => Reject(if ListedAsOrigin(db.locations, e.jneCode) then JNE_CODE_ORIGIN_ONLY else JNE_CODE_NOT_IN_MASTER)
        case Some(l) =>
          if !l.isActive then Reject(JNE_LOCATION_INACTIVE)
          else if l.source !in allowed then Reject(JNE_SOURCE_NOT_ALLOWED)
          else DecidePair(db.mappings, e, d, l)
  }

  /** A row that gets as far as claiming its pair. */
  predicate Claims(e: ManifestEntry, all: seq<ManifestEntry>) {
    ShapeProblem(e).None? && !Conflicts(all, e)
  }

  function SeenPairs(entries: seq<ManifestEntry>, all: seq<ManifestEntry>): set<(string, string)> {
    set e | e in entries && Claims(e, all) :: (e.districtCode, e.jneCode)
  }

  function Decide(db: Db, e: ManifestEntry, all: seq<ManifestEntry>, seen: set<(string, string)>,
                  allowed: set<Source>): Outcome {
    match ShapeProblem(e)
    case Some(reason) => Reject(reason)
    case None =>
      if Conflicts(all, e) then Reject(CONFLICTING_ROWS)
      else if (e.districtCode, e.jneCode) in seen then Reject(DUPLICATE_ROW)
      else DecideTarget(db, e, allowed)
  }

  /** The outcome of every row, each knowing the rows before it. */
  function Outcomes(db: Db, entries: seq<ManifestEntry>, all: seq<ManifestEntry>, allowed: set<Source>): (r: seq<Outcome>)
    ensures |r| == |entries|
  {
    if entries == [] then []
    else
      var before := entries[..|entries| - 1];
      Outcomes(db, before, all, allowed) + [Decide(db, entries[|entries| - 1], all, SeenPairs(before, all), allowed)]
  }

  /** The codes listed for each district of the manifest. */
  method GroupCodes(entries: seq<ManifestEntry>) returns (codesByDistrict: map<string, set<string>>)
    ensures forall e | e in entries :: e.districtCode in codesByDistrict
    ensures forall d | d in codesByDistrict :: codesByDistrict[d] == CodesOf(entries, d)
  {
    codesByDistrict := map[];
    for i := 0 to |entries|
      invariant forall e | e in entries[..i] :: e.districtCode in codesByDistrict
      invariant forall d | d !in codesByDistrict :: CodesOf(entries[..i], d) == {}
      invariant forall d | d in codesByDistrict :: codesByDistrict[d] == CodesOf(entries[..i], d)
    {
      var e := entries[i];
      assert entries[..i + 1] == entries[..i] + [e];
      var codes := if e.districtCode in codesByDistrict then codesByDistrict[e.districtCode] else {};
      codesByDistrict := codesByDistrict[e.districtCode := codes + {e.jneCode}];
      forall d ensures CodesOf(entries[..i + 1], d) == CodesOf(entries[..i], d) + if e.districtCode == d then {e.jneCode} else {} {
      }
    }
    assert entries[..|entries|] == entries;
  }

  lemma {:induction false} SeenGrows(entries: seq<ManifestEntry>, i: nat)
    requires i < |entries|
    ensures entries[..i + 1][..i] == entries[..i]
    ensures SeenPairs(entries[..i + 1], entries) ==
            SeenPairs(entries[..i], entries) + if Claims(entries[i], entries) then {(entries[i].districtCode, entries[i].jneCode)} else {}
  {
    assert entries[..i + 1] == entries[..i] + [entries[i]];
  }

  /** Decides the rows one after the other, remembering the pairs already claimed. */
  method ValidateManifest(db: Db, entries: seq<ManifestEntry>, allowed: set<Source>) returns (rows: seq<Outcome>)
    ensures rows == Outcomes(db, entries, entries, allowed)
  {
    var codesByDistrict := GroupCodes(entries);
    var seen: set<(string, string)> := {};
    rows := [];
    for i := 0 to |entries|
      invariant seen == SeenPairs(entries[..i], entries)
      invariant rows == Outcomes(db, entries[..i], entries, allowed)
    {
      var e := entries[i];
      SeenGrows(entries, i);
      var bad := ShapeProblem(e);
      if bad.Some? {
        rows := rows + [Reject(bad.value)];
      } else if |codesByDistrict[e.districtCode]| > 1 {
        rows := rows + [Reject(CONFLICTING_ROWS)];
      } else if (e.districtCode, e.jneCode) in seen {
        rows := rows + [Reject(DUPLICATE_ROW)];
      } else {
        seen := seen + {(e.districtCode, e.jneCode)};
        rows := rows + [DecideTarget(db, e, allowed)];
      }
    }
    assert entries[..|entries|] == entries;
  }

  // ------------------------------------------------------------- the write

  function Writes(rows: seq<Outcome>): (w: seq<CandidateWrite>)
    ensures forall x :: x in w <==> Accept(x) in rows
  {
    if rows == [] then []
    else
      assert rows == rows[..|rows| - 1] + [rows[|rows| - 1]];
      Writes(rows[..|rows| - 1]) + if rows[|rows| - 1].Accept? then [rows[|rows| - 1].write] else []
  }

  predicate HasRejects(rows: seq<Outcome>) {
    exists o | o in rows :: o.Reject?
  }

  datatype MappingKey = MappingKey(districtId: nat, locationId: nat, status: Status, isActive: bool)

  function KeyOf(m: Mapping): MappingKey {
    MappingKey(m.districtId, m.locationId, m.status, m.isActive)
  }

  /** What identifies the mappings of some districts, whatever order they are read in. */
  function Fingerprint(rows: seq<Mapping>, districts: set<nat>): multiset<MappingKey> {
    if rows == [] then multiset{}
    else
      var m := rows[|rows| - 1];
      Fingerprint(rows[..|rows| - 1], districts) + if m.districtId in districts then multiset{KeyOf(m)} else multiset{}
  }

  function TargetDistricts(writes: seq<CandidateWrite>): set<nat> {
    set w | w in writes :: w.districtId
  }

  function NewMapping(w: CandidateWrite, id: nat, now: int): Mapping {
    Mapping(id, w.districtId, w.locationId, REVIEW_REQUIRED, true, None, "", now)
  }

  function NewMappings(writes: seq<CandidateWrite>, nextId: nat, now: int): (rows: seq<Mapping>)
    ensures |rows| == |writes|
  {
    seq(|writes|, i requires 0 <= i < |writes| => NewMapping(writes[i], nextId + i, now))
  }

  function WithCandidates(db: Db, writes: seq<CandidateWrite>, now: int): Db {
    db.(mappings := db.mappings + NewMappings(writes, db.nextId, now),
        nextId := db.nextId + |writes|)
  }

  /** The unique key (district, location) and the foreign keys admit the candidates. */
  predicate CandidatesFit(db: Db, writes: seq<CandidateWrite>) {
    && (forall w, m | w in writes && m in db.mappings :: m.districtId != w.districtId || m.locationId != w.locationId)
    && (forall i, j | 0 <= i < j < |writes| :: writes[i].districtId != writes[j].districtId || writes[i].locationId != writes[j].locationId)
    && (forall w | w in writes ::
          LocationById(db.locations, w.locationId).Some? && DistrictById(db.districts, w.districtId).Some?)
  }

  /**
   * The transaction of an import that validated against `seen`: it runs only if the mappings of the
   * target districts are still the same, and then inserts every candidate, or nothing.
   */
  function CandidateTransaction(seen: Db, db: Db, writes: seq<CandidateWrite>, now: int): Option<Db> {
    var districts := TargetDistricts(writes);
    if Fingerprint(db.mappings, districts) != Fingerprint(seen.mappings, districts) || !CandidatesFit(db, writes) then None
    else Some(WithCandidates(db, writes, now))
  }

  method CreateCandidates(store: MasterStore, writes: seq<CandidateWrite>, now: int) returns (count: Option<nat>)
    modifies store
    ensures count.Some? <==> CandidatesFit(old(store.db), writes)
    ensures count.Some? ==> count.value == |writes| && store.db == WithCandidates(old(store.db), writes, now)
    ensures count.None? ==> store.db == old(store.db)
  {
    if !CandidatesFit(store.db, writes) {
      return None;
    }
    store.db := WithCandidates(store.db, writes, now);
    count := Some(|writes|);
  }

  lemma {:induction false} AddedCandidates(db: Db, writes: seq<CandidateWrite>, now: int, m: Mapping)
    ensures m in WithCandidates(db, writes, now).mappings <==>
            m in db.mappings || exists k | 0 <= k < |writes| :: m == NewMapping(writes[k], db.nextId + k, now)
  {
    var all := WithCandidates(db, writes, now).mappings;
    if k: nat :| k < |writes| && m == NewMapping(writes[k], db.nextId + k, now) {
      assert all[|db.mappings| + k] == m;
    }
    if m in db.mappings {
      var i :| 0 <= i < |db.mappings| && db.mappings[i] == m;
      assert all[i] == m;
    }
    if m in all {
      var i :| 0 <= i < |all| && all[i] == m;
      assert i >= |db.mappings| ==> m == NewMapping(writes[i - |db.mappings|], db.nextId + (i - |db.mappings|), now);
    }
  }

  lemma {:induction false} LaterChunkFits(db: Db, writes: seq<CandidateWrite>, i: nat, hi: nat, now: int)
    requires i < hi <= |writes| && CandidatesFit(db, writes)
    ensures CandidatesFit(WithCandidates(db, writes[..i], now), writes[i..hi])
  {
    var before := WithCandidates(db, writes[..i], now);
    forall w, m | w in writes[i..hi] && m in before.mappings
      ensures m.districtId != w.districtId || m.locationId != w.locationId
    {
      var b :| i <= b < hi && writes[b] == w;
      assert writes[b] in writes;
      AddedCandidates(db, writes[..i], now, m);
    }
  }

  lemma {:induction false} ChunksFitTogether(db: Db, writes: seq<CandidateWrite>, i: nat, hi: nat, now: int)
    requires i < hi <= |writes|
    requires CandidatesFit(db, writes[..i]) && CandidatesFit(WithCandidates(db, writes[..i], now), writes[i..hi])
    ensures CandidatesFit(db, writes[..hi])
  {
    var before := WithCandidates(db, writes[..i], now);
    assert writes[..hi] == writes[..i] + writes[i..hi];
    forall a, b | 0 <= a < b < hi
      ensures writes[a].districtId != writes[b].districtId || writes[a].locationId != writes[b].locationId
    {
      if b < i {
        assert writes[..i][a] == writes[a] && writes[..i][b] == writes[b];
      } else if a < i {
        assert writes[..i][a] == writes[a] && writes[b] in writes[i..hi];
        AddedCandidates(db, writes[..i], now, NewMapping(writes[..i][a], db.nextId + a, now));
      } else {
        assert writes[i..hi][a - i] == writes[a] && writes[i..hi][b - i] == writes[b];
      }
    }
    forall m | m in db.mappings { AddedCandidates(db, writes[..i], now, m); }
  }

  lemma {:induction false} ChunksAddUp(db: Db, writes: seq<CandidateWrite>, i: nat, hi: nat, now: int)
    requires i < hi <= |writes|
    ensures WithCandidates(WithCandidates(db, writes[..i], now), writes[i..hi], now) == WithCandidates(db, writes[..hi], now)
  {
    assert WithCandidates(WithCandidates(db, writes[..i], now), writes[i..hi], now).mappings == WithCandidates(db, writes[..hi], now).mappings;
  }

  lemma {:induction false} ChunkFits(db: Db, writes: seq<CandidateWrite>, i: nat, hi: nat, now: int)
    requires i < hi <= |writes|
    ensures CandidatesFit(db, writes) ==> CandidatesFit(WithCandidates(db, writes[..i], now), writes[i..hi])
    ensures CandidatesFit(db, writes[..i]) && CandidatesFit(WithCandidates(db, writes[..i], now), writes[i..hi]) ==>
              CandidatesFit(db, writes[..hi])
    ensures WithCandidates(WithCandidates(db, writes[..i], now), writes[i..hi], now) == WithCandidates(db, writes[..hi], now)
  {
    if CandidatesFit(db, writes) {
      LaterChunkFits(db, writes, i, hi, now);
    }
    if CandidatesFit(db, writes[..i]) && CandidatesFit(WithCandidates(db, writes[..i], now), writes[i..hi]) {
      ChunksFitTogether(db, writes, i, hi, now);
    }
    ChunksAddUp(db, writes, i, hi, now);
  }

  /** Inserts the candidates, at most WRITE_CHUNK to a statement; any failure keeps the database as found. */
  method ImportTransaction(store: MasterStore, seen: Db, writes: seq<CandidateWrite>, now: int) returns (ok: bool)
    modifies store
    ensures ok <==> CandidateTransaction(seen, old(store.db), writes, now).Some?
    ensures store.db == if ok then CandidateTransaction(seen, old(store.db), writes, now).value else old(store.db)
  {
    var saved := store.db;
    var districts := TargetDistricts(writes);
    if Fingerprint(store.db.mappings, districts) != Fingerprint(seen.mappings, districts) {
      return false;
    }
    var i := 0;
    assert writes[..0] == [];
    assert WithCandidates(saved, [], now).mappings == saved.mappings;
    while i < |writes|
      invariant i <= |writes|
      invariant CandidatesFit(saved, writes[..i]) && store.db == WithCandidates(saved, writes[..i], now)
    {
      var hi := if i + WRITE_CHUNK < |writes| then i + WRITE_CHUNK else |writes|;
      ChunkFits(saved, writes, i, hi, now);
      var count := CreateCandidates(store, writes[i..hi], now);
      if count.None? {
        store.db := saved;
        return false;
      }
      i := hi;
    }
    assert writes[..i] == writes;
    ok := true;
  }

  /** A whole import: validated against `seen`, written to `db` if nothing was refused. */
  function ImportManifest(seen: Db, db: Db, entries: seq<ManifestEntry>, allowed: set<Source>, allowPartial: bool,
                          now: int): Option<Db> {
    var rows := Outcomes(seen, entries, entries, allowed);
    var writes := Writes(rows);
    if (HasRejects(rows) && !allowPartial) || writes == [] then None
    else CandidateTransaction(seen, db, writes, now)
  }
}
