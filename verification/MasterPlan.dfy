/** What importing a JNE master snapshot would do. */
module MasterPlan {
  // What importing a JNE master snapshot would do, decided from the snapshot and everything the
  // database holds. A sha256 value stands for the text it was taken of: two are equal exactly when
  // those texts are.

  import opened Wrappers
  import opened JneMaster
  import opened JneDatabase
  import Text

  // ------------------------------------------------------------- input

  datatype ReviewedRename = ReviewedRename(code: string, fromName: string, toName: string)

  /** `reviewedAt` is absent when the stated date does not parse. */
  datatype Acknowledgment = Acknowledgment(
    mappingId: nat,
    districtCode: string,
    jneCode: string,
    expectedRawName: string,
    expectedStatus: string,
    snapshotSha256: string,
    reviewer: string,
    reason: string,
    reviewedAt: Option<int>)

  const ACK_REASON_MIN := 10

  datatype Provenance = Provenance(
    environment: string,
    verb: string,
    url: string,
    httpStatus: int,
    bodySha256: string,
    requestStartedUtc: string)

  datatype Target = Target(jneEnvironment: Option<string>, jneBaseUrl: Option<string>, jneOriginCode: Option<string>)

  datatype Expectations = Expectations(
    records: Option<nat>,
    uniqueCodes: Option<nat>,
    sha256: Option<string>,
    plan: Option<PlanIdentity>)

  /** Everything an import is given except the stored state. */
  datatype Request = Request(
    kind: Kind,
    source: Source,
    sha256: string,
    sourceFetchedAt: Option<int>,
    inspection: Inspection,
    seeds: seq<Seed>,
    reviewedRenames: seq<ReviewedRename>,
    missingAcks: seq<Acknowledgment>,
    provenance: Option<Provenance>,
    provenanceProblems: seq<string>,
    target: Target,
    expected: Expectations,
    requireExpectations: bool)

  // ------------------------------------------------------------- output

  datatype BlockerCode =
    | INVALID_RECORDS
    | DUPLICATE_CODES
    | EXPECTED_VALUE_REQUIRED
    | RECORD_COUNT_MISMATCH
    | UNIQUE_CODE_COUNT_MISMATCH
    | CHECKSUM_MISMATCH
    | PLAN_MISMATCH
    | FETCH_TIME_UNKNOWN
    | STALE_SNAPSHOT
    | PROVENANCE_MISSING
    | PROVENANCE_INVALID
    | TARGET_ENVIRONMENT_MISMATCH
    | SANDBOX_INTO_PRODUCTION_MASTER
    | RENAME_NEEDS_REVIEW
    | REVIEWED_RENAME_NOT_PENDING
    | MISSING_MATCHED_NEEDS_ACK
    | MISSING_ACK_INVALID
    | MISSING_ACK_NOT_PENDING
    | ORIGIN_CODE_UNKNOWN
    | ORIGIN_CODE_NOT_IN_SNAPSHOT
    | ORIGIN_CODE_NOT_ACTIVE

  datatype Changes = Changes(rawName: bool, source: bool, sourceFetchedAt: bool, isActive: bool) {
    predicate Any() {
      rawName || source || sourceFetchedAt || isActive
    }
  }

  datatype Update = Update(
    id: nat,
    code: string,
    seed: Seed,
    changes: Changes,
    fromRawName: string,
    fromSource: Source,
    wasActive: bool)

  datatype Missing = Missing(
    id: nat,
    code: string,
    source: Source,
    rawName: string,
    isActive: bool,
    activeMatched: nat,
    activeReview: nat)

  datatype MissingMatched = MissingMatched(
    mappingId: nat,
    districtCode: string,
    jneCode: string,
    rawName: string,
    status: Status,
    acknowledged: bool)

  datatype MappingState = UNCHANGED | RELABELLED | RENAMED | MISSING

  datatype Impact = Impact(mapping: MappingView, state: MappingState)

  /** The text the plan hash is taken of. */
  datatype PlanIdentity = PlanIdentity(
    environment: string,
    baseUrl: Option<string>,
    originCode: Option<string>,
    capture: Option<Provenance>,
    kind: Kind,
    source: Source,
    snapshot: string,
    fetchedAt: Option<int>,
    created: seq<(string, string)>,
    updated: seq<(nat, string, Changes, string, string, Source, bool)>,
    missing: seq<Missing>,
    mappings: seq<(nat, string, Status, bool, string, MappingState)>,
    missingAcks: multiset<Acknowledgment>,
    protectedFingerprint: multiset<Location>)

  datatype Plan = Plan(
    kind: Kind,
    source: Source,
    sourceFetchedAt: Option<int>,
    created: seq<Seed>,
    updated: seq<Update>,
    alike: nat,  // the count the source calls "unchanged"
    missing: seq<Missing>,
    missingMatched: seq<MissingMatched>,
    impact: seq<Impact>,
    protectedFingerprint: multiset<Location>,
    blockers: seq<BlockerCode>,
    planSha256: PlanIdentity)

  // ------------------------------------------------------------- what changes

  /** The row of a kind under a code; the last one read wins. */
  function Existing(rows: seq<Location>, kind: Kind, code: string): (r: Option<Location>)
    ensures r.Some? ==> r.value in rows && r.value.kind == kind && r.value.code == code
    ensures r.None? ==> forall e | e in rows :: e.kind != kind || e.code != code
  {
    if rows == [] then None
    else if rows[|rows| - 1].kind == kind && rows[|rows| - 1].code == code then Some(rows[|rows| - 1])
    else Existing(rows[..|rows| - 1], kind, code)
  }

  function ChangesOf(prev: Location, seed: Seed, source: Source, fetchedAt: Option<int>): Changes {
    Changes(
      prev.rawName != seed.rawName,
      prev.source != source,
      fetchedAt.Some? && prev.sourceFetchedAt != fetchedAt.value,
      prev.isActive != seed.isActive)
  }

  function UpdateOf(prev: Location, seed: Seed, r: Request): Update {
    Update(prev.id, seed.code, seed, ChangesOf(prev, seed, r.source, r.sourceFetchedAt), prev.rawName, prev.source, prev.isActive)
  }

  function CreatedOf(seeds: seq<Seed>, rows: seq<Location>, kind: Kind): seq<Seed> {
    if seeds == [] then []
    else
      var seed := seeds[|seeds| - 1];
      CreatedOf(seeds[..|seeds| - 1], rows, kind) + if Existing(rows, kind, seed.code).None? then [seed] else []
  }

  function UpdatedOf(seeds: seq<Seed>, rows: seq<Location>, r: Request): seq<Update> {
    if seeds == [] then []
    else
      var seed := seeds[|seeds| - 1];
      UpdatedOf(seeds[..|seeds| - 1], rows, r) +
      match Existing(rows, r.kind, seed.code)
      case None => []
      case Some(prev) => if ChangesOf(prev, seed, r.source, r.sourceFetchedAt).Any() then [UpdateOf(prev, seed, r)] else []
  }

  function UnchangedOf(seeds: seq<Seed>, rows: seq<Location>, r: Request): nat {
    if seeds == [] then 0
    else
      var seed := seeds[|seeds| - 1];
      UnchangedOf(seeds[..|seeds| - 1], rows, r) +
      match Existing(rows, r.kind, seed.code)
      case None => 0
      case Some(prev) => if ChangesOf(prev, seed, r.source, r.sourceFetchedAt).Any() then 0 else 1
  }

  function SeedCodes(seeds: seq<Seed>): set<string> {
    set s | s in seeds :: s.code
  }

  /** Listed in the snapshot but refused as rows: neither incoming nor missing. */
  function Excluded(inspection: Inspection): set<string> {
    (set c | c in inspection.testCodes) + inspection.duplicates.Keys
  }

  predicate Concerns(m: MappingView, kind: Kind, code: string) {
    m.kind == kind && m.jneCode == code
  }

  function CountActive(mappings: seq<MappingView>, kind: Kind, code: string, status: Status): nat {
    if mappings == [] then 0
    else
      var m := mappings[|mappings| - 1];
      CountActive(mappings[..|mappings| - 1], kind, code, status) +
      if Concerns(m, kind, code) && m.isActive && m.status == status then 1 else 0
  }

  predicate IsMissing(e: Location, r: Request) {
    e.kind == r.kind && e.code !in SeedCodes(r.seeds) && e.code !in Excluded(r.inspection)
  }

  function MissingRow(e: Location, r: Request, mappings: seq<MappingView>): Missing {
    Missing(e.id, e.code, e.source, e.rawName, e.isActive,
            CountActive(mappings, r.kind, e.code, MATCHED), CountActive(mappings, r.kind, e.code, REVIEW_REQUIRED))
  }

  function MissingOf(rows: seq<Location>, r: Request, mappings: seq<MappingView>): seq<Missing> {
    if rows == [] then []
    else
      var e := rows[|rows| - 1];
      MissingOf(rows[..|rows| - 1], r, mappings) + if IsMissing(e, r) then [MissingRow(e, r, mappings)] else []
  }

  function MissingByCode(missing: seq<Missing>, code: string): (m: Option<Missing>)
    ensures m.Some? ==> m.value in missing && m.value.code == code
    ensures m.None? ==> forall x | x in missing :: x.code != code
  {
    if missing == [] then None
    else if missing[|missing| - 1].code == code then Some(missing[|missing| - 1])
    else MissingByCode(missing[..|missing| - 1], code)
  }

  function UpdateByCode(updated: seq<Update>, code: string): Option<Update> {
    if updated == [] then None
    else if updated[|updated| - 1].code == code then Some(updated[|updated| - 1])
    else UpdateByCode(updated[..|updated| - 1], code)
  }

  function StateOf(m: MappingView, updated: seq<Update>, missing: seq<Missing>): MappingState {
    if MissingByCode(missing, m.jneCode).Some? then MISSING
    else
      match UpdateByCode(updated, m.jneCode)
      case None => UNCHANGED
      case Some(u) => if u.changes.rawName then RENAMED else RELABELLED
  }

  function ImpactOf(mappings: seq<MappingView>, kind: Kind, updated: seq<Update>, missing: seq<Missing>): seq<Impact> {
    if mappings == [] then []
    else
      var m := mappings[|mappings| - 1];
      ImpactOf(mappings[..|mappings| - 1], kind, updated, missing) +
      if m.kind == kind then [Impact(m, StateOf(m, updated, missing))] else []
  }

  // ------------------------------------------------------------- renames

  function ReviewOf(reviewed: seq<ReviewedRename>, code: string): Option<ReviewedRename> {
    if reviewed == [] then None
    else if reviewed[|reviewed| - 1].code == code then Some(reviewed[|reviewed| - 1])
    else ReviewOf(reviewed[..|reviewed| - 1], code)
  }

  predicate Approved(u: Update, reviewed: seq<ReviewedRename>) {
    var review := ReviewOf(reviewed, u.code);
    review.Some? && review.value.fromName == u.fromRawName && review.value.toName == u.seed.rawName
  }

  function RenameBlocks(updated: seq<Update>, r: Request, mappings: seq<MappingView>): seq<BlockerCode> {
    if updated == [] then []
    else
      var u := updated[|updated| - 1];
      RenameBlocks(updated[..|updated| - 1], r, mappings) +
      if u.changes.rawName && CountActive(mappings, r.kind, u.code, MATCHED) > 0 && !Approved(u, r.reviewedRenames)
      then [RENAME_NEEDS_REVIEW] else []
  }

  /** The first planned rename of a code. */
  function PendingRename(updated: seq<Update>, code: string): Option<Update> {
    if updated == [] then None
    else if updated[0].changes.rawName && updated[0].code == code then Some(updated[0])
    else PendingRename(updated[1..], code)
  }

  predicate IsPending(review: ReviewedRename, updated: seq<Update>) {
    var u := PendingRename(updated, review.code);
    u.Some? && u.value.fromRawName == review.fromName && u.value.seed.rawName == review.toName
  }

  function ReviewBlocks(reviewed: seq<ReviewedRename>, updated: seq<Update>): seq<BlockerCode> {
    if reviewed == [] then []
    else
      ReviewBlocks(reviewed[..|reviewed| - 1], updated) +
      if IsPending(reviewed[|reviewed| - 1], updated) then [] else [REVIEWED_RENAME_NOT_PENDING]
  }

  // ------------------------------------------------------------- acknowledgments

  function StatusName(s: Status): string {
    match s
    case MATCHED => "MATCHED"
    case REVIEW_REQUIRED => "REVIEW_REQUIRED"
    case AMBIGUOUS => "AMBIGUOUS"
    case NOT_FOUND => "NOT_FOUND"
  }

  /** An active MATCHED mapping on a code the snapshot no longer lists. */
  predicate NeedsAck(m: MappingView, kind: Kind, missing: seq<Missing>) {
    m.kind == kind && m.isActive && m.status == MATCHED && MissingByCode(missing, m.jneCode).Some?
  }

  function AckTarget(m: MappingView, missing: seq<Missing>): MissingMatched
    requires MissingByCode(missing, m.jneCode).Some?
  {
    MissingMatched(m.id, m.districtCode, m.jneCode, MissingByCode(missing, m.jneCode).value.rawName, m.status, false)
  }

  /** The acknowledgment names exactly this mapping, name, status and snapshot, and says who, why and when. */
  predicate Acknowledges(a: Acknowledgment, t: MissingMatched, sha256: string) {
    && a.districtCode == t.districtCode
    && a.jneCode == t.jneCode
    && a.expectedRawName == t.rawName
    && a.expectedStatus == StatusName(t.status)
    && a.snapshotSha256 == sha256
    && Text.Trim(a.reviewer) != ""
    && |Text.Trim(a.reason)| >= ACK_REASON_MIN
    && a.reviewedAt.Some?
  }

  function AckMap(acks: seq<Acknowledgment>): map<nat, Acknowledgment> {
    if acks == [] then map[]
    else AckMap(acks[..|acks| - 1])[acks[|acks| - 1].mappingId := acks[|acks| - 1]]
  }

  datatype AckScan = AckScan(entries: seq<MissingMatched>, blocks: seq<BlockerCode>, pending: map<nat, Acknowledgment>)

  function ScanOne(s: AckScan, t: MissingMatched, sha256: string): AckScan {
    var rest := s.pending - {t.mappingId};
    if t.mappingId !in s.pending then
      AckScan(s.entries + [t], s.blocks + [MISSING_MATCHED_NEEDS_ACK], rest)
    else if Acknowledges(s.pending[t.mappingId], t, sha256) then
      AckScan(s.entries + [t.(acknowledged := true)], s.blocks, rest)
    else
      AckScan(s.entries + [t], s.blocks + [MISSING_ACK_INVALID, MISSING_MATCHED_NEEDS_ACK], rest)
  }

  /** One pass over the mappings, taking each acknowledgment off the pending ones as it is used. */
  function ScanAcks(mappings: seq<MappingView>, r: Request, missing: seq<Missing>): AckScan {
    if mappings == [] then AckScan([], [], AckMap(r.missingAcks))
    else
      var m := mappings[|mappings| - 1];
      var before := ScanAcks(mappings[..|mappings| - 1], r, missing);
      if NeedsAck(m, r.kind, missing) then ScanOne(before, AckTarget(m, missing), r.sha256) else before
  }

  function Repeat(code: BlockerCode, n: nat): seq<BlockerCode> {
    seq(n, i => code)
  }

  function AckBlocks(s: AckScan): seq<BlockerCode> {
    s.blocks + Repeat(MISSING_ACK_NOT_PENDING, |s.pending|)
  }

  // ------------------------------------------------------------- the rest of the checks

  function BlockIf(condition: bool, code: BlockerCode): seq<BlockerCode> {
    if condition then [code] else []
  }

  predicate Given(v: Option<string>) {
    v.Some? && v.value != ""
  }

  function SnapshotBlocks(r: Request): seq<BlockerCode> {
    BlockIf(r.inspection.invalid != [], INVALID_RECORDS)
    + BlockIf(r.inspection.duplicates != map[], DUPLICATE_CODES)
    + BlockIf(r.requireExpectations && (r.expected.records.None? || r.expected.uniqueCodes.None? || !Given(r.expected.sha256)),
              EXPECTED_VALUE_REQUIRED)
    + BlockIf(r.expected.records.Some? && r.expected.records.value != r.inspection.records, RECORD_COUNT_MISMATCH)
    + BlockIf(r.expected.uniqueCodes.Some? && r.expected.uniqueCodes.value != r.inspection.uniqueCodes, UNIQUE_CODE_COUNT_MISMATCH)
    + BlockIf(Given(r.expected.sha256) && r.expected.sha256.value != r.sha256, CHECKSUM_MISMATCH)
  }

  function Environment(target: Target): string {
    if target.jneEnvironment.Some? then target.jneEnvironment.value else "sandbox"
  }

  function OriginCode(target: Target): Option<string> {
    match target.jneOriginCode case None => None case Some(code) => Some(Text.Trim(code))
  }

  function ProvenanceBlocks(r: Request): seq<BlockerCode> {
    BlockIf(r.sourceFetchedAt.None?, FETCH_TIME_UNKNOWN)
    + BlockIf(r.source == PRODUCTION && r.provenance.None?, PROVENANCE_MISSING)
    + Repeat(PROVENANCE_INVALID, |r.provenanceProblems|)
    + BlockIf((r.source == PRODUCTION) != (Environment(r.target) == "production"), TARGET_ENVIRONMENT_MISMATCH)
  }

  predicate HoldsProduction(rows: seq<Location>, kind: Kind) {
    exists e | e in rows :: e.kind == kind && e.source == PRODUCTION
  }

  predicate HoldsNewer(rows: seq<Location>, r: Request) {
    r.sourceFetchedAt.Some?
    && exists e | e in rows :: e.kind == r.kind && e.source == r.source && e.sourceFetchedAt > r.sourceFetchedAt.value
  }

  /** The first row of the other kind under a code. */
  function ProtectedByCode(rows: seq<Location>, kind: Kind, code: string): Option<Location> {
    if rows == [] then None
    else if rows[0].kind != kind && rows[0].code == code then Some(rows[0])
    else ProtectedByCode(rows[1..], kind, code)
  }

  predicate OriginIsActive(rows: seq<Location>, kind: Kind, code: string) {
    var origin := ProtectedByCode(rows, kind, code);
    origin.Some? && origin.value.isActive
  }

  function StateBlocks(rows: seq<Location>, r: Request): seq<BlockerCode> {
    var code := OriginCode(r.target);
    BlockIf(r.source == SANDBOX && HoldsProduction(rows, r.kind), SANDBOX_INTO_PRODUCTION_MASTER)
    + BlockIf(HoldsNewer(rows, r), STALE_SNAPSHOT)
    + BlockIf(r.source == PRODUCTION && !Given(code), ORIGIN_CODE_UNKNOWN)
    + BlockIf(Given(code) && r.kind == ORIGIN && code.value !in SeedCodes(r.seeds), ORIGIN_CODE_NOT_IN_SNAPSHOT)
    + BlockIf(Given(code) && r.kind == DESTINATION && r.source == PRODUCTION && !OriginIsActive(rows, r.kind, code.value),
              ORIGIN_CODE_NOT_ACTIVE)
  }

  /** The rows an import may not touch, every column of every one. */
  function Protected(rows: seq<Location>, kind: Kind): seq<Location> {
    if rows == [] then []
    else Protected(rows[..|rows| - 1], kind) + if rows[|rows| - 1].kind != kind then [rows[|rows| - 1]] else []
  }

  /** Independent of the order rows are read in, and equal exactly for the same rows in every column. */
  function LocationFingerprint(rows: seq<Location>): multiset<Location> {
    multiset(rows)
  }

  function CreatedIdentity(created: seq<Seed>): seq<(string, string)> {
    seq(|created|, i requires 0 <= i < |created| => (created[i].code, created[i].rawName))
  }

  function UpdateIdentity(u: Update): (nat, string, Changes, string, string, Source, bool) {
    (u.id, u.code, u.changes, u.fromRawName, u.seed.rawName, u.fromSource, u.wasActive)
  }

  function UpdatedIdentity(updated: seq<Update>): seq<(nat, string, Changes, string, string, Source, bool)> {
    seq(|updated|, i requires 0 <= i < |updated| => UpdateIdentity(updated[i]))
  }

  function ImpactIdentity(impact: seq<Impact>): seq<(nat, string, Status, bool, string, MappingState)> {
    seq(|impact|, i requires 0 <= i < |impact| =>
      var m := impact[i].mapping;
      (m.id, m.districtCode, m.status, m.isActive, m.jneCode, impact[i].state))
  }

  function PlanHash(r: Request, created: seq<Seed>, updated: seq<Update>, missing: seq<Missing>, impact: seq<Impact>,
                    fingerprint: multiset<Location>): PlanIdentity {
    PlanIdentity(
      Environment(r.target), r.target.jneBaseUrl, OriginCode(r.target), r.provenance,
      r.kind, r.source, r.sha256, r.sourceFetchedAt,
      CreatedIdentity(created), UpdatedIdentity(updated), missing, ImpactIdentity(impact), multiset(r.missingAcks), fingerprint)
  }

  function ReviewedPlanBlocks(r: Request, writes: nat, hash: PlanIdentity): seq<BlockerCode> {
    if !r.requireExpectations || writes == 0 then []
    else
      match r.expected.plan
      case None => [EXPECTED_VALUE_REQUIRED]
      case Some(reviewed) => BlockIf(reviewed != hash, PLAN_MISMATCH)
  }

  // ------------------------------------------------------------- the plan

  /** Every reason not to write, in the order the planner finds them. */
  function Blockers(r: Request, state: MasterState, updated: seq<Update>, missing: seq<Missing>, writes: nat,
                    hash: PlanIdentity): seq<BlockerCode> {
    RenameBlocks(updated, r, state.mappings)
    + (if writes > 0 then ReviewBlocks(r.reviewedRenames, updated) else [])
    + AckBlocks(ScanAcks(state.mappings, r, missing))
    + SnapshotBlocks(r)
    + ProvenanceBlocks(r)
    + StateBlocks(state.existing, r)
    + ReviewedPlanBlocks(r, writes, hash)
  }

  function PlanMaster(r: Request, state: MasterState): Plan {
    var created := CreatedOf(r.seeds, state.existing, r.kind);
    var updated := UpdatedOf(r.seeds, state.existing, r);
    var missing := MissingOf(state.existing, r, state.mappings);
    var impact := ImpactOf(state.mappings, r.kind, updated, missing);
    var acks := ScanAcks(state.mappings, r, missing);
    var fingerprint := LocationFingerprint(Protected(state.existing, r.kind));
    var hash := PlanHash(r, created, updated, missing, impact, fingerprint);
    Plan(
      r.kind, r.source, r.sourceFetchedAt, created, updated, UnchangedOf(r.seeds, state.existing, r),
      missing, acks.entries, impact, fingerprint,
      Blockers(r, state, updated, missing, |created| + |updated|, hash),
      hash)
  }

  /** The planner as it runs: one loop per part, pushing into the plan. */
  method PlanMasterImport(r: Request, state: MasterState) returns (plan: Plan)
    ensures plan == PlanMaster(r, state)
  {
    var rows, mappings := state.existing, state.mappings;
    var created: seq<Seed>, updated: seq<Update>, alike: nat := [], [], 0;
    for i := 0 to |r.seeds|
      invariant created == CreatedOf(r.seeds[..i], rows, r.kind)
      invariant updated == UpdatedOf(r.seeds[..i], rows, r)
      invariant alike == UnchangedOf(r.seeds[..i], rows, r)
    {
      assert r.seeds[..i + 1][..i] == r.seeds[..i];
      var seed := r.seeds[i];
      match Existing(rows, r.kind, seed.code)
      case None => created := created + [seed];
      case Some(prev) =>
        if ChangesOf(prev, seed, r.source, r.sourceFetchedAt).Any() {
          updated := updated + [UpdateOf(prev, seed, r)];
        } else {
          alike := alike + 1;
        }
    }
    assert r.seeds[..|r.seeds|] == r.seeds;
    var missing := MissingOf(rows, r, mappings);
    var blockers := RenameLoop(r, updated, mappings);
    if |created| + |updated| > 0 {
      blockers := blockers + ReviewBlocks(r.reviewedRenames, updated);
    }
    var missingMatched, ackBlocks := AckLoop(r, mappings, missing);
    var fingerprint := LocationFingerprint(Protected(rows, r.kind));
    var impact := ImpactOf(mappings, r.kind, updated, missing);
    var hash := PlanHash(r, created, updated, missing, impact, fingerprint);
    blockers := blockers + ackBlocks + SnapshotBlocks(r) + ProvenanceBlocks(r) + StateBlocks(rows, r)
                + ReviewedPlanBlocks(r, |created| + |updated|, hash);
    plan := Plan(r.kind, r.source, r.sourceFetchedAt, created, updated, alike, missing, missingMatched, impact,
                 fingerprint, blockers, hash);
  }

  method RenameLoop(r: Request, updated: seq<Update>, mappings: seq<MappingView>) returns (blockers: seq<BlockerCode>)
    ensures blockers == RenameBlocks(updated, r, mappings)
  {
    blockers := [];
    for i := 0 to |updated|
      invariant blockers == RenameBlocks(updated[..i], r, mappings)
    {
      assert updated[..i + 1][..i] == updated[..i];
      var u := updated[i];
      if u.changes.rawName && CountActive(mappings, r.kind, u.code, MATCHED) > 0 && !Approved(u, r.reviewedRenames) {
        blockers := blockers + [RENAME_NEEDS_REVIEW];
      }
    }
    assert updated[..|updated|] == updated;
  }

  method AckLoop(r: Request, mappings: seq<MappingView>, missing: seq<Missing>)
    returns (entries: seq<MissingMatched>, blockers: seq<BlockerCode>)
    ensures entries == ScanAcks(mappings, r, missing).entries && blockers == AckBlocks(ScanAcks(mappings, r, missing))
  {
    var pending: map<nat, Acknowledgment> := AckMap(r.missingAcks);
    entries, blockers := [], [];
    for i := 0 to |mappings|
      invariant AckScan(entries, blockers, pending) == ScanAcks(mappings[..i], r, missing)
    {
      assert mappings[..i + 1][..i] == mappings[..i];
      var m := mappings[i];
      if NeedsAck(m, r.kind, missing) {
        var entry := AckTarget(m, missing);
        if m.id in pending {
          var acknowledged := Acknowledges(pending[m.id], entry, r.sha256);
          entries := entries + [entry.(acknowledged := acknowledged)];
          if !acknowledged {
            blockers := blockers + [MISSING_ACK_INVALID, MISSING_MATCHED_NEEDS_ACK];
          }
        } else {
          entries, blockers := entries + [entry], blockers + [MISSING_MATCHED_NEEDS_ACK];
        }
        pending := pending - {m.id};
      }
    }
    assert mappings[..|mappings|] == mappings;
    blockers := blockers + Repeat(MISSING_ACK_NOT_PENDING, |pending|);
  }
}
