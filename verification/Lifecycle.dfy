/** Six tools on one database, in any order. */
module Lifecycle {
  // Six tools on one database, in any order: manifest import, approval, deactivation and reactivation of
  // mappings, master import and deactivation of missing codes. Each reads at some committed state and
  // commits, later, in one atomic transaction on whatever the database holds by then.

  import opened Wrappers
  import opened JneMaster
  import opened JneDatabase
  import opened MasterPlan
  import opened MasterPlanFacts
  import opened MasterImport
  import opened MasterVerify
  import opened MasterRun
  import opened Manifest
  import opened MappingTools
  import Text

  // ------------------------------------------------------------- what always holds

  predicate Resolves(m: Mapping) {
    m.isActive && m.status == MATCHED
  }

  /** A district resolves to at most one code. */
  ghost predicate OneMatched(rows: seq<Mapping>) {
    forall i, j | 0 <= i < j < |rows| :: Resolves(rows[i]) && Resolves(rows[j]) ==> rows[i].districtId != rows[j].districtId
  }

  /** The code a district resolves to is an active destination. */
  ghost predicate MatchedIsLive(db: Db) {
    forall m | m in db.mappings :: Resolves(m) ==> LocationLive(db, m)
  }

  ghost predicate Safe(db: Db) {
    WellFormed(db) && OneMatched(db.mappings) && MatchedIsLive(db)
  }

  predicate SameRow(a: Mapping, b: Mapping) {
    a.id == b.id && a.districtId == b.districtId && a.locationId == b.locationId
  }

  predicate SameLocation(a: Location, b: Location) {
    a.id == b.id && a.code == b.code && a.kind == b.kind
  }

  /** No row is deleted or re-pointed: every row of `a` is still in `b`, with its id and its references. */
  ghost predicate Evolves(a: Db, b: Db) {
    && |a.mappings| <= |b.mappings| && (forall i | 0 <= i < |a.mappings| :: SameRow(a.mappings[i], b.mappings[i]))
    && |a.locations| <= |b.locations| && (forall i | 0 <= i < |a.locations| :: SameLocation(a.locations[i], b.locations[i]))
    && a.districts == b.districts
  }

  // ------------------------------------------------------------- the tools

  datatype Tool =
    | ManifestImport(entries: seq<ManifestEntry>, allowed: set<Source>, allowPartial: bool)
    | Approval(rows: seq<PairRow>, reviewer: string)
    | MappingDeactivation(pairs: seq<PairRow>, note: string, expectCount: nat)
    | MappingReactivation(reviews: seq<ReviewRow>)
    | MasterImporting(request: Request)
    | MissingDeactivation(missingIn: Request, deactivation: Deactivation)

  /** One run: the tool, the index of the state it read, and the time it commits. */
  datatype Event = Event(tool: Tool, seen: nat, now: int)

  ghost predicate ValidTool(t: Tool) {
    t.MasterImporting? ==> FromSnapshot(t.request)
  }

  /** The run found no blocker, and the transaction finds the same plan again. */
  predicate ImportCommits(plan: Plan, again: Plan) {
    again.sourceFetchedAt.Some? && plan.blockers == [] && again.planSha256 == plan.planSha256 && again.blockers == []
  }

  function IfCommitted(db: Db, plan: Plan, again: Plan, now: int): Db {
    if ImportCommits(plan, again) then Written(db, again, now) else db
  }

  function IfDeactivated(db: Db, r: Request, d: Deactivation, again: Plan, now: int): Db {
    if MayDeactivate(db, r, d, again, now) then WithoutCodes(db, r, d, again, now) else db
  }

  ghost function Committed(tx: Option<Db>, db: Db): Db {
    match tx case None => db case Some(after) => after
  }

  /** What a master run plans on a state; the mapping tools make no plan. */
  ghost function PlanOf(db: Db, t: Tool): Option<Plan>
    requires WellFormed(db)
  {
    match t
    case MasterImporting(r) => Some(PlanMaster(r, ReadMasterState(db)))
    case MissingDeactivation(r, _) => Some(PlanMaster(r, ReadMasterState(db)))
    case _ => None
  }

  /**
   * The next committed state: the tool decided on `seen`, where it planned `plan`, and its transaction
   * ran on `db`, where it planned `again`.
   */
  ghost function Step(seen: Db, db: Db, e: Event, plan: Option<Plan>, again: Option<Plan>): Db {
    match e.tool
    case ManifestImport(entries, allowed, allowPartial) => Committed(ImportManifest(seen, db, entries, allowed, allowPartial, e.now), db)
    case Approval(rows, reviewer) => Committed(ApproveTransaction(seen, db, rows, reviewer, e.now), db)
    case MappingDeactivation(pairs, note, expectCount) => Committed(DeactivateMappings(seen, db, pairs, note, expectCount, e.now), db)
    case MappingReactivation(reviews) => Committed(ReactivateTransaction(seen, db, reviews, e.now), db)
    case MasterImporting(r) => if plan.Some? && again.Some? then IfCommitted(db, plan.value, again.value, e.now) else db
    case MissingDeactivation(r, d) => if again.Some? then IfDeactivated(db, r, d, again.value, e.now) else db
  }

  // ------------------------------------------------------------- mapping rows

  lemma {:induction false} FoundMapping(rows: seq<Mapping>, i: nat)
    requires i < |rows| && forall j, k | 0 <= j < k < |rows| :: rows[j].id != rows[k].id
    ensures MappingById(rows, rows[i].id) == Some(rows[i])
  {
    if i < |rows| - 1 {
      FoundMapping(rows[..|rows| - 1], i);
    }
  }

  /** Replacing the row at `i` by one with the same id and references changes that row and no other. */
  lemma {:induction false} ReplacedAt(db: Db, i: nat, m: Mapping)
    requires WellFormed(db) && i < |db.mappings| && SameRow(db.mappings[i], m)
    ensures Replaced(db.mappings, m) == db.mappings[i := m]
  {
  }

  /** A new value for one row keeps all keys and references; it is safe if the row does not resolve, or may. */
  lemma {:induction false} ReplaceIsSafe(db: Db, i: nat, m: Mapping)
    requires Safe(db) && i < |db.mappings| && SameRow(db.mappings[i], m)
    requires Resolves(m) ==>
               && LocationLive(db, m)
               && forall o | o in db.mappings :: o.districtId == m.districtId && o.id != m.id ==> !Resolves(o)
    ensures Safe(db.(mappings := Replaced(db.mappings, m))) && Evolves(db, db.(mappings := Replaced(db.mappings, m)))
  {
    ReplacedAt(db, i, m);
    var rows := db.mappings[i := m];
    forall a, b | 0 <= a < b < |rows| && Resolves(rows[a]) && Resolves(rows[b])
      ensures rows[a].districtId != rows[b].districtId
    {
      assert db.mappings[a] in db.mappings && db.mappings[b] in db.mappings;
    }
    forall x | x in rows
      ensures LocationById(db.locations, x.locationId).Some? && DistrictById(db.districts, x.districtId).Some?
      ensures Resolves(x) ==> LocationLive(db, x)
    {
      var k :| 0 <= k < |rows| && rows[k] == x;
      assert db.mappings[k] in db.mappings;
    }
  }

  // ------------------------------------------------------------- each tool keeps it

  lemma {:induction false} CandidatesAreSafe(db: Db, writes: seq<CandidateWrite>, now: int)
    requires Safe(db) && CandidatesFit(db, writes)
    ensures Safe(WithCandidates(db, writes, now)) && Evolves(db, WithCandidates(db, writes, now))
  {
    CandidateRows(db, writes, now);
    CandidateReferences(db, writes, now);
  }

  /** The stored rows stay where they are; each row after them is a candidate. */
  lemma {:induction false} CandidateRows(db: Db, writes: seq<CandidateWrite>, now: int)
    ensures var rows, n := WithCandidates(db, writes, now).mappings, |db.mappings|;
      forall i | 0 <= i < |rows| ::
        if i < n then rows[i] == db.mappings[i] && rows[i] in db.mappings
        else rows[i] == NewMapping(writes[i - n], db.nextId + (i - n), now) && writes[i - n] in writes
  {
  }

  lemma {:induction false} CandidateReferences(db: Db, writes: seq<CandidateWrite>, now: int)
    requires References(db) && MatchedIsLive(db) && CandidatesFit(db, writes)
    ensures References(WithCandidates(db, writes, now)) && MatchedIsLive(WithCandidates(db, writes, now))
  {
    CandidateRows(db, writes, now);
    var rows := WithCandidates(db, writes, now).mappings;
    forall x | x in rows
      ensures LocationById(db.locations, x.locationId).Some? && DistrictById(db.districts, x.districtId).Some?
      ensures Resolves(x) ==> LocationLive(db, x)
    {
      var k :| 0 <= k < |rows| && rows[k] == x;
    }
  }

  /** A promotion list made at an earlier state still names the right districts. */
  ghost predicate Consistent(db: Db, promote: seq<(nat, nat)>) {
    forall p, m | p in promote && m in db.mappings :: m.id == p.0 ==> m.districtId == p.1
  }

  lemma {:induction false} EvolvedDistrict(seen: Db, db: Db, x: Mapping, m: Mapping)
    requires WellFormed(db) && Evolves(seen, db) && x in seen.mappings && m in db.mappings && x.id == m.id
    ensures x.districtId == m.districtId
  {
    var i :| 0 <= i < |seen.mappings| && seen.mappings[i] == x;
    var j :| 0 <= j < |db.mappings| && db.mappings[j] == m;
    assert SameRow(seen.mappings[i], db.mappings[i]);
  }

  lemma {:induction false} EvolvingIsConsistent(seen: Db, db: Db, rows: seq<PairRow>)
    requires WellFormed(db) && Evolves(seen, db)
    ensures Consistent(db, Promotions(Approvals(seen, rows, rows)))
  {
    forall p, m | p in Promotions(Approvals(seen, rows, rows)) && m in db.mappings && m.id == p.0
      ensures m.districtId == p.1
    {
      PromotionFacts(seen, rows, rows, p);
      var x :| x in seen.mappings && x.id == p.0 && x.districtId == p.1;
      EvolvedDistrict(seen, db, x, m);
    }
  }

  lemma {:induction false} PromotionFacts(db: Db, rows: seq<PairRow>, all: seq<PairRow>, p: (nat, nat))
    requires Promote(p.0, p.1) in Approvals(db, rows, all)
    ensures exists m | m in db.mappings :: m.id == p.0 && m.districtId == p.1
  {
    var n := |rows| - 1;
    if Promote(p.0, p.1) in Approvals(db, rows[..n], all) {
      PromotionFacts(db, rows[..n], all, p);
    }
  }

  lemma {:induction false} ApproveOneIsSafe(db: Db, p: (nat, nat), reviewer: string, now: int)
    requires Safe(db) && Consistent(db, [p])
    ensures var after := ApproveOne(db, p.0, p.1, reviewer, now);
            after.Some? ==> Safe(after.value) && Evolves(db, after.value)
  {
    var found := MappingById(db.mappings, p.0);
    if ApproveOne(db, p.0, p.1, reviewer, now).Some? {
      var m := found.value;
      var i :| 0 <= i < |db.mappings| && db.mappings[i] == m;
      assert p in [p];
      ReplaceIsSafe(db, i, m.(status := MATCHED, reviewedBy := Some(reviewer), updatedAt := now));
    }
  }

  lemma {:induction false} ConsistentLater(a: Db, b: Db, promote: seq<(nat, nat)>)
    requires Consistent(a, promote) && WellFormed(a) && WellFormed(b) && Evolves(a, b) && |a.mappings| == |b.mappings|
    ensures Consistent(b, promote)
  {
    forall p, m | p in promote && m in b.mappings && m.id == p.0 ensures m.districtId == p.1 {
      var j :| 0 <= j < |b.mappings| && b.mappings[j] == m;
      assert SameRow(a.mappings[j], b.mappings[j]) && a.mappings[j] in a.mappings;
    }
  }

  lemma {:induction false} ApproveAllIsSafe(db: Db, promote: seq<(nat, nat)>, reviewer: string, now: int)
    requires Safe(db) && Consistent(db, promote)
    ensures var after := ApproveAll(db, promote, reviewer, now);
            after.Some? ==> Safe(after.value) && Evolves(db, after.value) && |after.value.mappings| == |db.mappings|
  {
    if promote != [] {
      var n := |promote| - 1;
      ConsistentFront(db, promote);
      ApproveAllIsSafe(db, promote[..n], reviewer, now);
      var before := ApproveAll(db, promote[..n], reviewer, now);
      if before.Some? {
        ConsistentLater(db, before.value, [promote[n]]);
        ApproveOneIsSafe(before.value, promote[n], reviewer, now);
        if ApproveOne(before.value, promote[n].0, promote[n].1, reviewer, now).Some? {
          EvolvesOn(db, before.value, ApproveOne(before.value, promote[n].0, promote[n].1, reviewer, now).value);
        }
      }
    }
  }

  lemma {:induction false} ConsistentFront(db: Db, promote: seq<(nat, nat)>)
    requires Consistent(db, promote) && promote != []
    ensures Consistent(db, promote[..|promote| - 1]) && Consistent(db, [promote[|promote| - 1]])
  {
    assert promote == promote[..|promote| - 1] + [promote[|promote| - 1]];
  }

  lemma {:induction false} EvolvesOn(a: Db, b: Db, c: Db)
    requires Evolves(a, b) && Evolves(b, c)
    ensures Evolves(a, c)
  {
  }

  lemma {:induction false} DeactivateAllIsSafe(db: Db, targets: seq<Mapping>, note: string, now: int)
    requires Safe(db)
    ensures var after := DeactivateAll(db, targets, note, now);
            after.Some? ==> Safe(after.value) && Evolves(db, after.value)
  {
    if targets != [] {
      var n := |targets| - 1;
      DeactivateAllIsSafe(db, targets[..n], note, now);
      var before := DeactivateAll(db, targets[..n], note, now);
      if before.Some? && DeactivateOne(before.value, targets[n], note, now).Some? {
        DeactivateOneIsSafe(before.value, targets[n], note, now);
        EvolvesOn(db, before.value, DeactivateOne(before.value, targets[n], note, now).value);
      }
    }
  }

  lemma {:induction false} DeactivateOneIsSafe(db: Db, target: Mapping, note: string, now: int)
    requires Safe(db)
    ensures var after := DeactivateOne(db, target, note, now);
            after.Some? ==> Safe(after.value) && Evolves(db, after.value)
  {
    if DeactivateOne(db, target, note, now).Some? {
      var m := MappingById(db.mappings, target.id).value;
      var i :| 0 <= i < |db.mappings| && db.mappings[i] == m;
      ReplaceIsSafe(db, i, m.(isActive := false, notes := Noted(target.notes, note), updatedAt := now));
    }
  }

  /** The row a review names is in a district where nothing else is approved or pending. */
  ghost predicate AloneInDistrict(db: Db, r: ReviewRow) {
    var m := MappingById(db.mappings, r.mappingId);
    m.Some? && OfDistrict(db, m.value, r.districtCode) && !HasLiveOther(db.mappings, m.value)
  }

  lemma {:induction false} ReactivateOneIsSafe(db: Db, r: ReviewRow, now: int)
    requires Safe(db) && AloneInDistrict(db, r)
    ensures var after := ReactivateOne(db, r, now);
            after.Some? ==> Safe(after.value) && Evolves(db, after.value)
  {
    if ReactivateOne(db, r, now).Some? {
      var m := MappingById(db.mappings, r.mappingId).value;
      var i :| 0 <= i < |db.mappings| && db.mappings[i] == m;
      ReplaceIsSafe(db, i, m.(isActive := true, notes := Noted(m.notes, Note(r)), updatedAt := now));
    }
  }

  /** Bringing one row back leaves a row of another district alone in its own. */
  lemma {:induction false} StillAlone(db: Db, r: ReviewRow, other: ReviewRow, now: int)
    requires Safe(db) && AloneInDistrict(db, r) && AloneInDistrict(db, other)
    requires r.mappingId != other.mappingId && r.districtCode != other.districtCode
    requires ReactivateOne(db, r, now).Some?
    ensures AloneInDistrict(ReactivateOne(db, r, now).value, other)
  {
    var after := ReactivateOne(db, r, now).value;
    var m, o := MappingById(db.mappings, r.mappingId).value, MappingById(db.mappings, other.mappingId).value;
    var i :| 0 <= i < |db.mappings| && db.mappings[i] == m;
    var j :| 0 <= j < |db.mappings| && db.mappings[j] == o;
    var back := m.(isActive := true, notes := Noted(m.notes, Note(r)), updatedAt := now);
    ReplacedAt(db, i, back);
    assert after == db.(mappings := db.mappings[i := back]);
    OthersStayAlone(db.mappings, i, back, j);
  }

  lemma {:induction false} OthersStayAlone(rows: seq<Mapping>, i: nat, back: Mapping, j: nat)
    requires i < |rows| && j < |rows| && i != j && SameRow(rows[i], back) && rows[i].districtId != rows[j].districtId
    requires forall a, b | 0 <= a < b < |rows| :: rows[a].id != rows[b].id
    requires !HasLiveOther(rows, rows[j])
    ensures MappingById(rows[i := back], rows[j].id) == Some(rows[j]) && !HasLiveOther(rows[i := back], rows[j])
  {
    FoundMapping(rows[i := back], j);
    forall x | x in rows[i := back] ensures x == back || x in rows {
    }
  }

  /** The rows that the reviews from `n` on name are alone in their districts. */
  ghost predicate AloneFrom(db: Db, rows: seq<ReviewRow>, n: nat) {
    forall k | n <= k < |rows| :: AloneInDistrict(db, rows[k])
  }

  lemma {:induction false} ReactivateAllIsSafe(db: Db, rows: seq<ReviewRow>, n: nat, now: int)
    requires Safe(db) && ListedOnce(rows) && n <= |rows| && AloneFrom(db, rows, 0)
    ensures var after := ReactivateAll(db, rows[..n], now);
            after.Some? ==> Safe(after.value) && Evolves(db, after.value) && AloneFrom(after.value, rows, n)
  {
    if n == 0 {
      assert rows[..0] == [];
    } else {
      ReactivateAllIsSafe(db, rows, n - 1, now);
      ReactivateAllNext(db, rows, n, now);
      var before := ReactivateAll(db, rows[..n - 1], now);
      if before.Some? {
        ReactivateNext(db, before.value, rows, n, now);
      }
    }
  }

  lemma {:induction false} ReactivateAllNext(db: Db, rows: seq<ReviewRow>, n: nat, now: int)
    requires 0 < n <= |rows|
    ensures ReactivateAll(db, rows[..n], now)
         == match ReactivateAll(db, rows[..n - 1], now)
            case None => None
            case Some(before) => ReactivateOne(before, rows[n - 1], now)
  {
    assert rows[..n][..n - 1] == rows[..n - 1];
  }

  lemma {:induction false} ReactivateNext(first: Db, db: Db, rows: seq<ReviewRow>, n: nat, now: int)
    requires Safe(db) && Evolves(first, db) && ListedOnce(rows) && 0 < n <= |rows| && AloneFrom(db, rows, n - 1)
    ensures var after := ReactivateOne(db, rows[n - 1], now);
            after.Some? ==> Safe(after.value) && Evolves(first, after.value) && AloneFrom(after.value, rows, n)
  {
    var after := ReactivateOne(db, rows[n - 1], now);
    if after.Some? {
      ReactivateOneIsSafe(db, rows[n - 1], now);
      EvolvesOn(first, db, after.value);
      forall k | n <= k < |rows| ensures AloneInDistrict(after.value, rows[k]) {
        StillAlone(db, rows[n - 1], rows[k], now);
      }
    }
  }

  // ------------------------------------------------------------- the master's side

  /** A rewritten row keeps its id, code and kind, and no row is made inactive. */
  lemma {:induction false} RewriteKeepsActive(l: Location, p: Plan, now: int)
    requires p.sourceFetchedAt.Some? && forall u | u in p.updated :: u.seed.isActive
    ensures SameLocation(l, Rewrite(l, p.updated, p, now))
    ensures l.isActive ==> Rewrite(l, p.updated, p, now).isActive
  {
    var u := UpdateById(p.updated, l.id);
    assert u.Some? ==> u.value in p.updated;
  }

  lemma {:induction false} UpdatesHaveActiveSeeds(r: Request, rows: seq<Location>, updated: seq<Update>)
    requires FromSnapshot(r) && updated == UpdatedOf(r.seeds, rows, r)
    ensures forall u | u in updated :: u.seed.isActive
  {
    UpdatedFacts(r.seeds, rows, r);
    forall u | u in updated ensures u.seed.isActive {
      assert IsUpdate(u, r.seeds, rows, r);
    }
  }

  lemma {:induction false} ImportIsSafe(r: Request, db: Db, p: Plan, now: int)
    requires Safe(db) && FromSnapshot(r) && p == PlanMaster(r, ReadMasterState(db)) && p.sourceFetchedAt.Some?
    ensures Safe(Written(db, p, now)) && Evolves(db, Written(db, p, now))
  {
    assert Writable(p, db.nextId) && KeysAreFree(db.locations, p.created) by {
      PlanApplies(r, db);
    }
    WrittenIsWellFormed(db, p, now);
    var after := Written(db, p, now);
    ImportEvolves(r, db, p, now);
    forall m | m in db.mappings && Resolves(m) ensures LocationLive(after, m) {
      ImportKeepsLive(r, db, p, now, m);
    }
  }

  lemma {:induction false} ImportEvolves(r: Request, db: Db, p: Plan, now: int)
    requires Safe(db) && FromSnapshot(r) && p == PlanMaster(r, ReadMasterState(db)) && p.sourceFetchedAt.Some?
    ensures Evolves(db, Written(db, p, now))
  {
    UpdatesHaveActiveSeeds(r, db.locations, p.updated);
    forall i | 0 <= i < |db.locations| ensures SameLocation(db.locations[i], Written(db, p, now).locations[i]) {
      RewriteKeepsActive(db.locations[i], p, now);
    }
  }

  lemma {:induction false} ImportKeepsLive(r: Request, db: Db, p: Plan, now: int, m: Mapping)
    requires Safe(db) && FromSnapshot(r) && p == PlanMaster(r, ReadMasterState(db)) && p.sourceFetchedAt.Some?
    requires Writable(p, db.nextId) && KeysAreFree(db.locations, p.created) && m in db.mappings && Resolves(m)
    ensures LocationLive(Written(db, p, now), m)
  {
    StillFound(db, p, now, m.locationId);
    var i :| 0 <= i < |db.locations| && db.locations[i] == LocationById(db.locations, m.locationId).value;
    UpdatesHaveActiveSeeds(r, db.locations, p.updated);
    RewriteKeepsActive(db.locations[i], p, now);
  }

  lemma {:induction false} DeactivatedRows(db: Db, ids: set<nat>, kind: Kind, now: int, id: nat)
    requires WellFormed(db) && LocationById(db.locations, id).Some?
    ensures LocationById(DeactivateRows(db.locations, ids, kind, now), id) ==
            Some(Deactivated(LocationById(db.locations, id).value, ids, kind, now))
  {
    var rows := DeactivateRows(db.locations, ids, kind, now);
    var i :| 0 <= i < |db.locations| && db.locations[i] == LocationById(db.locations, id).value;
    FoundById(rows, i);
  }

  /** A code that may be deactivated has no mapping that resolves to it. */
  lemma {:induction false} DeactivatedIsUnmapped(db: Db, r: Request, d: Deactivation, m: Mapping)
    requires WellFormed(db) && m in db.mappings && Resolves(m)
    requires CodeRefusals(d.codes, MissingOf(db.locations, r, ReadMasterState(db).mappings)) == []
    ensures var l := LocationOf(db, m);
            !(l.id in TargetIds(MissingOf(db.locations, r, ReadMasterState(db).mappings), d.codes) && l.kind == r.kind)
  {
    var views := ReadMasterState(db).mappings;
    var missing := MissingOf(db.locations, r, views);
    var l := LocationOf(db, m);
    if l.id in TargetIds(missing, d.codes) && l.kind == r.kind {
      var x := TargetOfLocation(db, r, d, views, l);
      NoCodeRefused(d.codes, missing, x.code);
      MappedIsCounted(db, m, views);
      SomeActive(views, r.kind, l.code, MATCHED);
    }
  }

  /** The missing row that makes a location a target is that location's own. */
  lemma {:induction false} TargetOfLocation(db: Db, r: Request, d: Deactivation, views: seq<MappingView>, l: Location)
    returns (x: Missing)
    requires WellFormed(db) && l in db.locations && l.id in TargetIds(MissingOf(db.locations, r, views), d.codes)
    ensures x.code in d.codes && x.code == l.code && MissingByCode(MissingOf(db.locations, r, views), x.code).Some?
    ensures MissingByCode(MissingOf(db.locations, r, views), x.code).value.activeMatched == CountActive(views, r.kind, l.code, MATCHED)
  {
    var missing := MissingOf(db.locations, r, views);
    MissingFacts(db.locations, r, views);
    x :| x in missing && x.code in d.codes && x.id == l.id;
    var e :| e in db.locations && IsMissing(e, r) && x == MissingRow(e, r, views);
    assert e == l;
  }

  lemma {:induction false} MappedIsCounted(db: Db, m: Mapping, views: seq<MappingView>)
    requires WellFormed(db) && m in db.mappings && Resolves(m) && views == ReadMasterState(db).mappings
    ensures exists v | v in views :: Concerns(v, LocationOf(db, m).kind, LocationOf(db, m).code) && v.isActive && v.status == MATCHED
  {
    var i :| 0 <= i < |db.mappings| && db.mappings[i] == m;
    assert views[i] == View(db, m) && views[i] in views;
  }

  lemma {:induction false} DeactivatedKeys(db: Db, ids: set<nat>, kind: Kind, now: int)
    requires WellFormed(db)
    ensures WellFormed(db.(locations := DeactivateRows(db.locations, ids, kind, now)))
    ensures Evolves(db, db.(locations := DeactivateRows(db.locations, ids, kind, now)))
  {
    forall m | m in db.mappings ensures LocationById(DeactivateRows(db.locations, ids, kind, now), m.locationId).Some? {
      DeactivatedRows(db, ids, kind, now, m.locationId);
    }
  }

  lemma {:induction false} MissingDeactivationIsSafe(db: Db, r: Request, d: Deactivation, now: int)
    requires Safe(db)
    requires CodeRefusals(d.codes, MissingOf(db.locations, r, ReadMasterState(db).mappings)) == []
    ensures var ids := TargetIds(MissingOf(db.locations, r, ReadMasterState(db).mappings), d.codes);
            var after := db.(locations := DeactivateRows(db.locations, ids, r.kind, now));
            Safe(after) && Evolves(db, after)
  {
    var ids := TargetIds(MissingOf(db.locations, r, ReadMasterState(db).mappings), d.codes);
    DeactivatedKeys(db, ids, r.kind, now);
    forall m | m in db.mappings && Resolves(m)
      ensures LocationLive(db.(locations := DeactivateRows(db.locations, ids, r.kind, now)), m)
    {
      DeactivatedRows(db, ids, r.kind, now, m.locationId);
      DeactivatedIsUnmapped(db, r, d, m);
    }
  }

  lemma {:induction false} NoRefusals(p: Plan, d: Deactivation)
    requires Refusals(p, d) == []
    ensures CodeRefusals(d.codes, p.missing) == []
  {
    assert |Refusals(p, d)| == |RequestRefusals(p, d)| + |CodeRefusals(d.codes, p.missing)|;
  }

  // ------------------------------------------------------------- every interleaving

  /** `after` is safe, and nothing of `db` is gone from it. */
  ghost predicate Kept(db: Db, after: Db) {
    Safe(after) && Evolves(db, after)
  }

  lemma {:induction false} KeptItself(db: Db)
    requires Safe(db)
    ensures Kept(db, db)
  {
  }

  lemma {:induction false} KeptTransitive(a: Db, b: Db, c: Db)
    requires Kept(a, b) && Kept(b, c)
    ensures Kept(a, c)
  {
  }

  lemma {:induction false} ManifestStep(seen: Db, db: Db, e: Event)
    requires Safe(db) && e.tool.ManifestImport?
    ensures Kept(db, Step(seen, db, e, None, None))
  {
    var ManifestImport(entries, allowed, allowPartial) := e.tool;
    if ImportManifest(seen, db, entries, allowed, allowPartial, e.now).Some? {
      CandidatesAreSafe(db, Writes(Outcomes(seen, entries, entries, allowed)), e.now);
    }
  }

  lemma {:induction false} ApprovalIsSafe(seen: Db, db: Db, rows: seq<PairRow>, reviewer: string, now: int)
    requires Safe(db) && Evolves(seen, db)
    ensures var after := ApproveTransaction(seen, db, rows, reviewer, now);
            after.Some? ==> Kept(db, after.value)
  {
    EvolvingIsConsistent(seen, db, rows);
    ApproveAllIsSafe(db, Promotions(Approvals(seen, rows, rows)), Text.Trim(reviewer), now);
  }

  lemma {:induction false} ApprovalStep(seen: Db, db: Db, e: Event)
    requires Safe(db) && Evolves(seen, db) && e.tool.Approval?
    ensures Kept(db, Step(seen, db, e, None, None))
  {
    ApprovalIsSafe(seen, db, e.tool.rows, e.tool.reviewer, e.now);
    KeptItself(db);
  }

  lemma {:induction false} DeactivationStep(seen: Db, db: Db, e: Event)
    requires Safe(db) && e.tool.MappingDeactivation?
    ensures Kept(db, Step(seen, db, e, None, None))
  {
    var MappingDeactivation(pairs, note, expectCount) := e.tool;
    var after := DeactivateMappings(seen, db, pairs, note, expectCount, e.now);
    var targets := DeactivationTargets(Deactivations(seen, pairs, pairs));
    DeactivationIsAll(seen, db, pairs, note, expectCount, e.now);
    DeactivateAllIsSafe(db, targets, note, e.now);
    assert after.Some? ==> after == DeactivateAll(db, targets, note, e.now);
  }

  lemma {:induction false} DeactivationIsAll(seen: Db, db: Db, pairs: seq<PairRow>, note: string, expectCount: nat,
                                             now: int)
    ensures var after := DeactivateMappings(seen, db, pairs, note, expectCount, now);
            after.Some? ==> after == DeactivateAll(db, DeactivationTargets(Deactivations(seen, pairs, pairs)), note, now)
  {
  }

  lemma {:induction false} ReactivationStep(seen: Db, db: Db, e: Event)
    requires Safe(db) && e.tool.MappingReactivation?
    ensures Kept(db, Step(seen, db, e, None, None))
  {
    var reviews := e.tool.reviews;
    var after := ReactivateTransaction(seen, db, reviews, e.now);
    if after.Some? {
      assert forall r | r in reviews :: MayReactivate(db, r);
      ReactivationIsSafe(db, reviews, e.now);
    } else {
      KeptItself(db);
    }
  }

  lemma {:induction false} ReactivationIsSafe(db: Db, reviews: seq<ReviewRow>, now: int)
    requires Safe(db) && ListedOnce(reviews) && forall r | r in reviews :: MayReactivate(db, r)
    ensures var after := ReactivateAll(db, reviews, now);
            after.Some? ==> Kept(db, after.value)
  {
    assert reviews[..|reviews|] == reviews;
    forall k | 0 <= k < |reviews| ensures AloneInDistrict(db, reviews[k]) {
      assert MayReactivate(db, reviews[k]);
    }
    ReactivateAllIsSafe(db, reviews, |reviews|, now);
  }

  lemma {:induction false} WrittenIsKept(db: Db, r: Request, p: Plan, now: int)
    requires Safe(db) && FromSnapshot(r) && p == PlanMaster(r, ReadMasterState(db)) && p.sourceFetchedAt.Some?
    ensures Kept(db, Written(db, p, now))
  {
    ImportIsSafe(r, db, p, now);
  }

  lemma {:induction false} ImportIsKept(db: Db, r: Request, plan: Plan, again: Plan, now: int)
    requires Safe(db) && FromSnapshot(r) && again == PlanMaster(r, ReadMasterState(db))
    ensures Kept(db, IfCommitted(db, plan, again, now))
  {
    if ImportCommits(plan, again) {
      WrittenIsKept(db, r, again, now);
    } else {
      KeptItself(db);
    }
  }

  lemma {:induction false} DeactivationIsKept(db: Db, r: Request, d: Deactivation, again: Plan, now: int)
    requires Safe(db) && again == PlanMaster(r, ReadMasterState(db))
    ensures Kept(db, IfDeactivated(db, r, d, again, now))
  {
    if MayDeactivate(db, r, d, again, now) {
      NoRefusals(again, d);
      MissingDeactivationIsSafe(db, r, d, now);
    } else {
      KeptItself(db);
    }
  }

  lemma {:induction false} ImportStep(seen: Db, db: Db, e: Event, plan: Plan, again: Plan)
    requires e.tool.MasterImporting?
    ensures Step(seen, db, e, Some(plan), Some(again)) == IfCommitted(db, plan, again, e.now)
  {
  }

  lemma {:induction false} MissingDeactivationStep(seen: Db, db: Db, e: Event, plan: Plan, again: Plan)
    requires e.tool.MissingDeactivation?
    ensures Step(seen, db, e, Some(plan), Some(again)) == IfDeactivated(db, e.tool.missingIn, e.tool.deactivation, again, e.now)
  {
  }

  lemma {:induction false} StepIsSafe(seen: Db, db: Db, e: Event, plan: Option<Plan>, again: Option<Plan>)
    requires WellFormed(seen) && Safe(db) && Evolves(seen, db) && ValidTool(e.tool)
    requires plan == PlanOf(seen, e.tool) && again == PlanOf(db, e.tool)
    ensures Kept(db, Step(seen, db, e, plan, again))
  {
    if e.tool.ManifestImport? {
      ManifestStep(seen, db, e);
    } else if e.tool.Approval? {
      ApprovalStep(seen, db, e);
    } else if e.tool.MappingDeactivation? {
      DeactivationStep(seen, db, e);
    } else if e.tool.MappingReactivation? {
      ReactivationStep(seen, db, e);
    } else if e.tool.MasterImporting? {
      ImportIsKept(db, e.tool.request, plan.value, again.value, e.now);
      ImportStep(seen, db, e, plan.value, again.value);
    } else {
      DeactivationIsKept(db, e.tool.missingIn, e.tool.deactivation, again.value, e.now);
      MissingDeactivationStep(seen, db, e, plan.value, again.value);
    }
  }

  /** `after` is what the run commits on `db`; what a run does to malformed tables is left open. */
  ghost predicate Leads(seen: Db, db: Db, e: Event, after: Db) {
    WellFormed(seen) && WellFormed(db) ==> after == Step(seen, db, e, PlanOf(seen, e.tool), PlanOf(db, e.tool))
  }

  /** Run `i` read an earlier state or the last one, and committed on the last one. */
  ghost predicate Follows(h: seq<Db>, events: seq<Event>, i: nat)
    requires |h| == |events| + 1 && i < |events|
  {
    events[i].seen <= i && ValidTool(events[i].tool) && Leads(h[events[i].seen], h[i], events[i], h[i + 1])
  }

  /** The committed states, oldest first, each the work of one run on the state before it. */
  ghost predicate IsHistory(h: seq<Db>, events: seq<Event>) {
    |h| == |events| + 1 && forall i | 0 <= i < |events| :: Follows(h, events, i)
  }

  lemma {:induction false} NextIsKept(h: seq<Db>, events: seq<Event>, i: nat)
    requires IsHistory(h, events) && i < |events| && events[i].seen <= i
    requires Safe(h[events[i].seen]) && Kept(h[events[i].seen], h[i])
    ensures Kept(h[i], h[i + 1])
  {
    assert Follows(h, events, i);
    var e := events[i];
    StepIsSafe(h[e.seen], h[i], e, PlanOf(h[e.seen], e.tool), PlanOf(h[i], e.tool));
  }

  /**
   * Over every interleaving, from any safe state: at every moment each district has at most one active
   * MATCHED mapping, each of those points at an active DESTINATION, (district, location) pairs are
   * unique, and no row of any earlier moment has been deleted or re-pointed.
   */
  lemma {:induction false} EveryInterleavingIsSafe(h: seq<Db>, events: seq<Event>, i: nat, j: nat)
    requires IsHistory(h, events) && Safe(h[0]) && i <= j < |h|
    ensures Kept(h[i], h[j])
    decreases 2 * j
  {
    if j > 0 {
      LastIsKept(h, events, j - 1);
    }
    if i == j {
      KeptItself(h[j]);
    } else {
      EveryInterleavingIsSafe(h, events, i, j - 1);
      KeptTransitive(h[i], h[j - 1], h[j]);
    }
  }

  lemma {:induction false} LastIsKept(h: seq<Db>, events: seq<Event>, i: nat)
    requires IsHistory(h, events) && Safe(h[0]) && i < |events|
    ensures Kept(h[i], h[i + 1])
    decreases 2 * i + 1
  {
    SeenIsEarlier(h, events, i);
    var seen := events[i].seen;
    EveryInterleavingIsSafe(h, events, seen, seen);
    EveryInterleavingIsSafe(h, events, seen, i);
    NextIsKept(h, events, i);
  }

  lemma {:induction false} SeenIsEarlier(h: seq<Db>, events: seq<Event>, i: nat)
    requires IsHistory(h, events) && i < |events|
    ensures events[i].seen <= i
  {
    assert Follows(h, events, i);
  }
}
