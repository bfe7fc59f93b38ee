/** Approving, deactivating and reactivating a stored mapping. */
module MappingTools {
  // The three tools that change a stored mapping: approve, deactivate and reactivate. Each decides on the
  // rows it read, then works in one transaction that re-checks every row and keeps all changes or none.
  // Rows are decided in the order given.

  import opened Wrappers
  import opened JneMaster
  import opened JneDatabase
  import opened MasterPlan
  import opened MasterImport
  import opened Manifest
  import Text

  datatype PairRow = PairRow(record: nat, districtCode: string, jneCode: string)

  function CodesListed(rows: seq<PairRow>, districtCode: string): set<string> {
    set r | r in rows && r.districtCode == districtCode :: r.jneCode
  }

  predicate OfDistrict(db: Db, m: Mapping, districtCode: string) {
    var d := DistrictById(db.districts, m.districtId);
    d.Some? && d.value.code == districtCode
  }

  predicate OnCode(db: Db, m: Mapping, code: string) {
    var l := LocationById(db.locations, m.locationId);
    l.Some? && l.value.code == code
  }

  /** On the DESTINATION with this code. */
  predicate OnDestination(db: Db, m: Mapping, code: string) {
    OnCode(db, m, code) && LocationById(db.locations, m.locationId).value.kind == DESTINATION
  }

  predicate LocationLive(db: Db, m: Mapping) {
    var l := LocationById(db.locations, m.locationId);
    l.Some? && l.value.kind == DESTINATION && l.value.isActive
  }

  predicate DistrictLive(db: Db, m: Mapping) {
    var d := DistrictById(db.districts, m.districtId);
    d.Some? && d.value.isActive && d.value.cityActive
  }

  /** The mapping row with this id. */
  function MappingById(rows: seq<Mapping>, id: nat): (r: Option<Mapping>)
    ensures r.Some? ==> r.value in rows && r.value.id == id
    ensures r.None? ==> forall m | m in rows :: m.id != id
  {
    if rows == [] then None
    else if rows[|rows| - 1].id == id then Some(rows[|rows| - 1])
    else MappingById(rows[..|rows| - 1], id)
  }

  /** `rows` with every row of this id replaced by `m`. */
  function Replaced(rows: seq<Mapping>, m: Mapping): (r: seq<Mapping>)
    ensures |r| == |rows|
  {
    seq(|rows|, i requires 0 <= i < |rows| => if rows[i].id == m.id then m else rows[i])
  }

  // ------------------------------------------------------------- approve

  datatype ApprovalRefusal =
    | SeveralCodes
    | DuplicateRow
    | ApprovedForOther
    | NoCandidate
    | CandidateInactive
    | LocationInactive
    | DistrictInactive

  datatype ApprovalDecision =
    | Promote(mappingId: nat, districtId: nat)
    | AlreadyApproved
    | RefuseApproval(why: ApprovalRefusal)

  /** The first candidate row of a district for a destination code. */
  function PendingPair(db: Db, rows: seq<Mapping>, r: PairRow): (m: Option<Mapping>)
    ensures m.Some? ==> m.value in rows && m.value.status == REVIEW_REQUIRED
                        && OfDistrict(db, m.value, r.districtCode) && OnDestination(db, m.value, r.jneCode)
  {
    if rows == [] then None
    else if OfDistrict(db, rows[0], r.districtCode) && OnDestination(db, rows[0], r.jneCode) && rows[0].status == REVIEW_REQUIRED
    then Some(rows[0])
    else PendingPair(db, rows[1..], r)
  }

  function DecideApproval(db: Db, r: PairRow, all: seq<PairRow>, seen: set<(string, string)>): ApprovalDecision {
    if |CodesListed(all, r.districtCode)| > 1 then RefuseApproval(SeveralCodes)
    else if (r.districtCode, r.jneCode) in seen then RefuseApproval(DuplicateRow)
    else if exists m | m in db.mappings ::
              OfDistrict(db, m, r.districtCode) && OnDestination(db, m, r.jneCode) && m.status == MATCHED && m.isActive
    then AlreadyApproved
    else if exists m | m in db.mappings ::
              OfDistrict(db, m, r.districtCode) && !OnCode(db, m, r.jneCode) && m.status == MATCHED && m.isActive
    then RefuseApproval(ApprovedForOther)
    else
      match PendingPair(db, db.mappings, r)
      case None => RefuseApproval(NoCandidate)
      case Some(m) =>
        if !m.isActive then RefuseApproval(CandidateInactive)
        else if !LocationLive(db, m) then RefuseApproval(LocationInactive)
        else if !DistrictLive(db, m) then RefuseApproval(DistrictInactive)
        else Promote(m.id, m.districtId)
  }

  function Approvals(db: Db, rows: seq<PairRow>, all: seq<PairRow>): (decisions: seq<ApprovalDecision>)
    ensures |decisions| == |rows|
  {
    if rows == [] then []
    else
      var before := rows[..|rows| - 1];
      Approvals(db, before, all) + [DecideApproval(db, rows[|rows| - 1], all, ClaimedPairs(before, all))]
  }

  /** The pairs of the rows that got past the several-codes check. */
  function ClaimedPairs(rows: seq<PairRow>, all: seq<PairRow>): set<(string, string)> {
    set r | r in rows && |CodesListed(all, r.districtCode)| <= 1 :: (r.districtCode, r.jneCode)
  }

  /** The codes listed for each district of the rows. */
  method ListCodes(rows: seq<PairRow>) returns (codesPerDistrict: map<string, set<string>>)
    ensures forall r | r in rows :: r.districtCode in codesPerDistrict
    ensures forall d | d in codesPerDistrict :: codesPerDistrict[d] == CodesListed(rows, d)
  {
    codesPerDistrict := map[];
    for i := 0 to |rows|
      invariant forall r | r in rows[..i] :: r.districtCode in codesPerDistrict
      invariant forall d | d !in codesPerDistrict :: CodesListed(rows[..i], d) == {}
      invariant forall d | d in codesPerDistrict :: codesPerDistrict[d] == CodesListed(rows[..i], d)
    {
      var r := rows[i];
      assert rows[..i + 1] == rows[..i] + [r];
      var codes := if r.districtCode in codesPerDistrict then codesPerDistrict[r.districtCode] else {};
      codesPerDistrict := codesPerDistrict[r.districtCode := codes + {r.jneCode}];
      forall d ensures CodesListed(rows[..i + 1], d) == CodesListed(rows[..i], d) + if r.districtCode == d then {r.jneCode} else {} {
      }
    }
    assert rows[..|rows|] == rows;
  }

  lemma {:induction false} ClaimedGrows(rows: seq<PairRow>, i: nat)
    requires i < |rows|
    ensures rows[..i + 1][..i] == rows[..i]
    ensures ClaimedPairs(rows[..i + 1], rows)
         == ClaimedPairs(rows[..i], rows)
            + if |CodesListed(rows, rows[i].districtCode)| <= 1 then {(rows[i].districtCode, rows[i].jneCode)} else {}
  {
    assert rows[..i + 1] == rows[..i] + [rows[i]];
  }

  /** Decides the rows one after the other, remembering the pairs already claimed. */
  method DecideApprovals(db: Db, rows: seq<PairRow>) returns (decisions: seq<ApprovalDecision>)
    ensures decisions == Approvals(db, rows, rows)
  {
    var codesPerDistrict := ListCodes(rows);
    var seen: set<(string, string)> := {};
    decisions := [];
    for i := 0 to |rows|
      invariant seen == ClaimedPairs(rows[..i], rows)
      invariant decisions == Approvals(db, rows[..i], rows)
    {
      var row := rows[i];
      ClaimedGrows(rows, i);
      if |codesPerDistrict[row.districtCode]| > 1 {
        decisions := decisions + [RefuseApproval(SeveralCodes)];
      } else if (row.districtCode, row.jneCode) in seen {
        decisions := decisions + [RefuseApproval(DuplicateRow)];
      } else {
        decisions := decisions + [DecideApproval(db, row, rows, seen)];
        seen := seen + {(row.districtCode, row.jneCode)};
      }
    }
    assert rows[..|rows|] == rows;
  }

  function Promotions(decisions: seq<ApprovalDecision>): (p: seq<(nat, nat)>)
    ensures forall x | x in p :: Promote(x.0, x.1) in decisions
  {
    if decisions == [] then []
    else
      assert decisions == decisions[..|decisions| - 1] + [decisions[|decisions| - 1]];
      Promotions(decisions[..|decisions| - 1]) +
      match decisions[|decisions| - 1] case Promote(id, districtId) => [(id, districtId)] case _ => []
  }

  /** One step of the approval transaction: no other approved code, and the row still as reviewed. */
  function ApproveOne(db: Db, mappingId: nat, districtId: nat, reviewer: string, now: int): Option<Db> {
    if exists m | m in db.mappings :: m.districtId == districtId && m.status == MATCHED && m.isActive && m.id != mappingId then None
    else
      match MappingById(db.mappings, mappingId)
      case None => None
      case Some(m) =>
        if m.status == REVIEW_REQUIRED && m.isActive && LocationLive(db, m) && DistrictLive(db, m) then
          Some(db.(mappings := Replaced(db.mappings, m.(status := MATCHED, reviewedBy := Some(reviewer), updatedAt := now))))
        else None
  }

  function ApproveAll(db: Db, promote: seq<(nat, nat)>, reviewer: string, now: int): Option<Db> {
    if promote == [] then Some(db)
    else
      match ApproveAll(db, promote[..|promote| - 1], reviewer, now)
      case None => None
      case Some(before) => ApproveOne(before, promote[|promote| - 1].0, promote[|promote| - 1].1, reviewer, now)
  }

  function ApproveTransaction(seen: Db, db: Db, rows: seq<PairRow>, reviewer: string, now: int): Option<Db> {
    var decisions := Approvals(seen, rows, rows);
    if Text.Trim(reviewer) == "" || exists d | d in decisions :: d.RefuseApproval? then None
    else ApproveAll(db, Promotions(decisions), Text.Trim(reviewer), now)
  }

  /** The promotion loop: counts the rows it promoted, and undoes them all when one has changed. */
  method ApproveInTransaction(store: MasterStore, promote: seq<(nat, nat)>, reviewer: string, now: int)
    returns (promoted: Option<nat>)
    modifies store
    ensures promoted == if ApproveAll(old(store.db), promote, reviewer, now).Some? then Some(|promote|) else None
    ensures store.db == if promoted.Some? then ApproveAll(old(store.db), promote, reviewer, now).value else old(store.db)
  {
    var saved := store.db;
    var n := 0;
    for i := 0 to |promote|
      invariant ApproveAll(saved, promote[..i], reviewer, now) == Some(store.db) && n == i
    {
      assert promote[..i + 1][..i] == promote[..i];
      var step := ApproveOne(store.db, promote[i].0, promote[i].1, reviewer, now);
      if step.None? {
        FailedPrefix(saved, promote, i + 1, reviewer, now);
        store.db := saved;
        return None;
      }
      store.db, n := step.value, n + 1;
    }
    assert promote[..|promote|] == promote;
    promoted := Some(n);
  }

  lemma {:induction false} FailedPrefix(db: Db, promote: seq<(nat, nat)>, n: nat, reviewer: string, now: int)
    requires n <= |promote| && ApproveAll(db, promote[..n], reviewer, now).None?
    ensures ApproveAll(db, promote, reviewer, now).None?
    decreases |promote|
  {
    if n < |promote| {
      var shorter := promote[..|promote| - 1];
      assert shorter[..n] == promote[..n];
      FailedPrefix(db, shorter, n, reviewer, now);
    } else {
      assert promote[..n] == promote;
    }
  }

  // ------------------------------------------------------------- deactivate

  datatype DeactivationRefusal = Malformed | ListedTwice | SeveralCodesListed | NoMapping | SeveralMappings

  datatype DeactivationDecision =
    | DeactivateMapping(mapping: Mapping)
    | AlreadyInactive
    | RefuseDeactivation(why: DeactivationRefusal)

  function PairMappings(db: Db, rows: seq<Mapping>, r: PairRow): (p: seq<Mapping>)
    ensures forall m | m in p :: m in rows
  {
    if rows == [] then []
    else
      PairMappings(db, rows[..|rows| - 1], r) +
      if OfDistrict(db, rows[|rows| - 1], r.districtCode) && OnDestination(db, rows[|rows| - 1], r.jneCode)
      then [rows[|rows| - 1]] else []
  }

  predicate WellShaped(r: PairRow) {
    IsDistrictCode(r.districtCode) && IsDestinationCode(r.jneCode)
  }

  function DecideDeactivation(db: Db, r: PairRow, all: seq<PairRow>, seen: set<(string, string)>): DeactivationDecision {
    if !WellShaped(r) then RefuseDeactivation(Malformed)
    else if |CodesListed(all, r.districtCode)| > 1 then RefuseDeactivation(SeveralCodesListed)
    else if (r.districtCode, r.jneCode) in seen then RefuseDeactivation(ListedTwice)
    else
      var pair := PairMappings(db, db.mappings, r);
      if pair == [] then RefuseDeactivation(NoMapping)
      else if |pair| > 1 then RefuseDeactivation(SeveralMappings)
      else if !pair[0].isActive then AlreadyInactive
      else DeactivateMapping(pair[0])
  }

  function Deactivations(db: Db, rows: seq<PairRow>, all: seq<PairRow>): (decisions: seq<DeactivationDecision>)
    ensures |decisions| == |rows|
  {
    if rows == [] then []
    else
      var before := rows[..|rows| - 1];
      Deactivations(db, before, all) + [DecideDeactivation(db, rows[|rows| - 1], all, ListedPairs(before, all))]
  }

  predicate IsListed(r: PairRow, all: seq<PairRow>) {
    WellShaped(r) && |CodesListed(all, r.districtCode)| <= 1
  }

  /** The pairs of the rows that got past the checks of shape and of several codes. */
  function ListedPairs(rows: seq<PairRow>, all: seq<PairRow>): set<(string, string)> {
    set r | r in rows && IsListed(r, all) :: (r.districtCode, r.jneCode)
  }

  lemma {:induction false} ListedGrows(rows: seq<PairRow>, i: nat)
    requires i < |rows|
    ensures rows[..i + 1][..i] == rows[..i]
    ensures ListedPairs(rows[..i + 1], rows)
         == ListedPairs(rows[..i], rows) + if IsListed(rows[i], rows) then {(rows[i].districtCode, rows[i].jneCode)} else {}
  {
    assert rows[..i + 1] == rows[..i] + [rows[i]];
  }

  method DecideDeactivations(db: Db, rows: seq<PairRow>) returns (decisions: seq<DeactivationDecision>)
    ensures decisions == Deactivations(db, rows, rows)
  {
    var codesPerDistrict := ListCodes(rows);
    var seen: set<(string, string)> := {};
    decisions := [];
    for i := 0 to |rows|
      invariant seen == ListedPairs(rows[..i], rows)
      invariant decisions == Deactivations(db, rows[..i], rows)
    {
      var row := rows[i];
      ListedGrows(rows, i);
      if !WellShaped(row) {
        decisions := decisions + [RefuseDeactivation(Malformed)];
      } else if |codesPerDistrict[row.districtCode]| > 1 {
        decisions := decisions + [RefuseDeactivation(SeveralCodesListed)];
      } else if (row.districtCode, row.jneCode) in seen {
        decisions := decisions + [RefuseDeactivation(ListedTwice)];
      } else {
        decisions := decisions + [DecideDeactivation(db, row, rows, seen)];
        seen := seen + {(row.districtCode, row.jneCode)};
      }
    }
    assert rows[..|rows|] == rows;
  }

  function DeactivationTargets(decisions: seq<DeactivationDecision>): (t: seq<Mapping>)
    ensures forall m | m in t :: DeactivateMapping(m) in decisions
  {
    if decisions == [] then []
    else
      assert decisions == decisions[..|decisions| - 1] + [decisions[|decisions| - 1]];
      DeactivationTargets(decisions[..|decisions| - 1]) +
      match decisions[|decisions| - 1] case DeactivateMapping(m) => [m] case _ => []
  }

  /** Compare and set: the row must still be in the exact state the decision saw. */
  function DeactivateOne(db: Db, seen: Mapping, note: string, now: int): Option<Db> {
    match MappingById(db.mappings, seen.id)
    case None => None
    case Some(m) =>
      if m.status == seen.status && m.isActive && m.updatedAt == seen.updatedAt then
        Some(db.(mappings := Replaced(db.mappings, m.(isActive := false, notes := Noted(seen.notes, note), updatedAt := now))))
      else None
  }

  function Noted(notes: string, note: string): string {
    if notes == "" then note else notes + "\n" + note
  }

  function DeactivateAll(db: Db, targets: seq<Mapping>, note: string, now: int): Option<Db> {
    if targets == [] then Some(db)
    else
      match DeactivateAll(db, targets[..|targets| - 1], note, now)
      case None => None
      case Some(before) => DeactivateOne(before, targets[|targets| - 1], note, now)
  }

  function DeactivateMappings(seen: Db, db: Db, rows: seq<PairRow>, note: string, expectCount: nat,
                              now: int): Option<Db> {
    var decisions := Deactivations(seen, rows, rows);
    var targets := DeactivationTargets(decisions);
    if (exists d | d in decisions :: d.RefuseDeactivation?) || |targets| != expectCount || expectCount < 1 then None
    else DeactivateAll(db, targets, note, now)
  }

  /** The compare-and-set loop; one row that moved since the decision undoes the whole run. */
  method DeactivateInTransaction(store: MasterStore, targets: seq<Mapping>, note: string, now: int)
    returns (deactivated: Option<nat>)
    modifies store
    ensures deactivated == if DeactivateAll(old(store.db), targets, note, now).Some? then Some(|targets|) else None
    ensures store.db == if deactivated.Some? then DeactivateAll(old(store.db), targets, note, now).value else old(store.db)
  {
    var saved := store.db;
    var n := 0;
    for i := 0 to |targets|
      invariant DeactivateAll(saved, targets[..i], note, now) == Some(store.db) && n == i
    {
      assert targets[..i + 1][..i] == targets[..i];
      var step := DeactivateOne(store.db, targets[i], note, now);
      if step.None? {
        FailedTarget(saved, targets, i + 1, note, now);
        store.db := saved;
        return None;
      }
      store.db, n := step.value, n + 1;
    }
    assert targets[..|targets|] == targets;
    deactivated := Some(n);
  }

  lemma {:induction false} FailedTarget(db: Db, targets: seq<Mapping>, n: nat, note: string, now: int)
    requires n <= |targets| && DeactivateAll(db, targets[..n], note, now).None?
    ensures DeactivateAll(db, targets, note, now).None?
    decreases |targets|
  {
    if n < |targets| {
      var shorter := targets[..|targets| - 1];
      assert shorter[..n] == targets[..n];
      FailedTarget(db, shorter, n, note, now);
    } else {
      assert targets[..n] == targets;
    }
  }

  // ------------------------------------------------------------- reactivate

  const REASON_MIN := 10

  /** A reviewed row; `expectedUpdatedAt` is absent when it is not a date. */
  datatype ReviewRow = ReviewRow(
    mappingId: nat,
    districtCode: string,
    jneCode: string,
    expectedStatus: string,
    expectedIsActive: string,
    expectedUpdatedAt: Option<int>,
    reviewer: string,
    reason: string,
    reviewReference: string)

  /** The reviewed row names the mapping's exact state, and the mapping may come back. */
  predicate MayReactivate(db: Db, r: ReviewRow) {
    var m := MappingById(db.mappings, r.mappingId);
    && r.reviewer != "" && |r.reason| >= REASON_MIN && r.reviewReference != ""
    && m.Some?
    && OfDistrict(db, m.value, r.districtCode) && OnCode(db, m.value, r.jneCode)
    && StatusName(m.value.status) == r.expectedStatus
    && r.expectedIsActive == "false" && !m.value.isActive
    && r.expectedUpdatedAt == Some(m.value.updatedAt)
    && (m.value.status == MATCHED || m.value.status == REVIEW_REQUIRED)
    && LocationLive(db, m.value) && DistrictLive(db, m.value)
    && !HasLiveOther(db.mappings, m.value)
  }

  /** Another mapping of the same district is approved or pending. */
  predicate HasLiveOther(rows: seq<Mapping>, m: Mapping) {
    exists o | o in rows :: o.districtId == m.districtId && o.id != m.id && o.isActive && (o.status == MATCHED || o.status == REVIEW_REQUIRED)
  }

  /** No mapping and no district is listed twice. */
  predicate ListedOnce(rows: seq<ReviewRow>) {
    forall i, j | 0 <= i < j < |rows| :: rows[i].mappingId != rows[j].mappingId && rows[i].districtCode != rows[j].districtCode
  }

  predicate NoneRefused(db: Db, rows: seq<ReviewRow>) {
    ListedOnce(rows) && forall r | r in rows :: MayReactivate(db, r)
  }

  function Note(r: ReviewRow): string {
    r.reviewer + " (" + r.reviewReference + "): " + r.reason
  }

  /** The row restored as it was, active again, with the action added to its notes. */
  function ReactivateOne(db: Db, r: ReviewRow, now: int): Option<Db> {
    match MappingById(db.mappings, r.mappingId)
    case None => None
    case Some(m) =>
      if StatusName(m.status) == r.expectedStatus && !m.isActive && r.expectedUpdatedAt == Some(m.updatedAt)
         && LocationLive(db, m) && DistrictLive(db, m)
      then Some(db.(mappings := Replaced(db.mappings, m.(isActive := true, notes := Noted(m.notes, Note(r)), updatedAt := now))))
      else None
  }

  function ReactivateAll(db: Db, rows: seq<ReviewRow>, now: int): Option<Db> {
    if rows == [] then Some(db)
    else
      match ReactivateAll(db, rows[..|rows| - 1], now)
      case None => None
      case Some(before) => ReactivateOne(before, rows[|rows| - 1], now)
  }

  /** Decided on what was seen, decided again on what the transaction sees, then all rows or none. */
  function ReactivateTransaction(seen: Db, db: Db, rows: seq<ReviewRow>, now: int): Option<Db> {
    if rows == [] || !NoneRefused(seen, rows) || !NoneRefused(db, rows) then None
    else ReactivateAll(db, rows, now)
  }
}
