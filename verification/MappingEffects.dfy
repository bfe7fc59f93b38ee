/** What a committed approval, deactivation or reactivation changes. */
module MappingEffects {
  // What a committed approval, deactivation or reactivation changes: exactly the rows it names, each in
  // one known way, whatever happened to the database since the tool read it.

  import opened Wrappers
  import opened JneMaster
  import opened JneDatabase
  import opened MappingTools
  import opened Lifecycle
  import Text

  /** `rows` with the rows of some ids given new values. */
  function Rewritten(rows: seq<Mapping>, changed: map<nat, Mapping>): (r: seq<Mapping>)
    ensures |r| == |rows|
  {
    seq(|rows|, i requires 0 <= i < |rows| => if rows[i].id in changed then changed[rows[i].id] else rows[i])
  }

  ghost predicate KeepsIds(changed: map<nat, Mapping>) {
    forall id | id in changed :: changed[id].id == id
  }

  lemma {:induction false} FoundInRewritten(rows: seq<Mapping>, changed: map<nat, Mapping>, id: nat)
    requires KeepsIds(changed)
    ensures MappingById(Rewritten(rows, changed), id)
         == if id in changed && MappingById(rows, id).Some? then Some(changed[id]) else MappingById(rows, id)
  {
    if rows != [] {
      var n := |rows| - 1;
      assert Rewritten(rows, changed)[..n] == Rewritten(rows[..n], changed);
      FoundInRewritten(rows[..n], changed, id);
    }
  }

  lemma {:induction false} ReplacedAfter(rows: seq<Mapping>, changed: map<nat, Mapping>, m: Mapping)
    requires KeepsIds(changed)
    ensures Replaced(Rewritten(rows, changed), m) == Rewritten(rows, changed[m.id := m])
  {
  }

  // ------------------------------------------------------------- approval

  function Promoted(m: Mapping, reviewer: string, now: int): Mapping {
    m.(status := MATCHED, reviewedBy := Some(reviewer), updatedAt := now)
  }

  function PromotedIds(promote: seq<(nat, nat)>): set<nat> {
    set p | p in promote :: p.0
  }

  function Approved(rows: seq<Mapping>, promote: seq<(nat, nat)>, reviewer: string, now: int): map<nat, Mapping> {
    map id | id in PromotedIds(promote) && MappingById(rows, id).Some? :: Promoted(MappingById(rows, id).value, reviewer, now)
  }

  predicate AwaitsApproval(rows: seq<Mapping>, id: nat) {
    var m := MappingById(rows, id);
    m.Some? && m.value.status == REVIEW_REQUIRED && m.value.isActive
  }

  lemma {:induction false} PromotedIdsOneMore(rows: seq<Mapping>, promote: seq<(nat, nat)>)
    requires promote != []
    ensures PromotedIds(promote) == PromotedIds(promote[..|promote| - 1]) + {promote[|promote| - 1].0}
    ensures (forall x | x in promote :: AwaitsApproval(rows, x.0))
       <==> (forall x | x in promote[..|promote| - 1] :: AwaitsApproval(rows, x.0)) && AwaitsApproval(rows, promote[|promote| - 1].0)
  {
    assert promote == promote[..|promote| - 1] + [promote[|promote| - 1]];
  }

  lemma {:induction false} ApprovedOneMore(rows: seq<Mapping>, promote: seq<(nat, nat)>, reviewer: string, now: int,
                                           m: Mapping)
    requires promote != [] && MappingById(rows, promote[|promote| - 1].0) == Some(m)
    ensures Approved(rows, promote, reviewer, now)
         == Approved(rows, promote[..|promote| - 1], reviewer, now)[m.id := Promoted(m, reviewer, now)]
  {
    PromotedIdsOneMore(rows, promote);
  }

  /**
   * A committed approval promotes exactly the rows it names: each awaited approval, is now MATCHED with the reviewer's
   * name, and is named once; no other row, location or district moves.
   */
  lemma {:induction false} ApprovalEffect(db: Db, promote: seq<(nat, nat)>, reviewer: string, now: int)
    ensures var after := ApproveAll(db, promote, reviewer, now);
            after.Some? ==>
              && after.value == db.(mappings := Rewritten(db.mappings, Approved(db.mappings, promote, reviewer, now)))
              && (forall p | p in promote :: AwaitsApproval(db.mappings, p.0))
              && |PromotedIds(promote)| == |promote|
  {
    if promote == [] {
      assert Rewritten(db.mappings, map[]) == db.mappings;
    } else {
      var before := ApproveAll(db, promote[..|promote| - 1], reviewer, now);
      if before.Some? {
        ApprovalEffect(db, promote[..|promote| - 1], reviewer, now);
        ApprovalStepEffect(db, promote, reviewer, now, before.value);
      }
    }
  }

  lemma {:induction false} ApprovalStepEffect(db: Db, promote: seq<(nat, nat)>, reviewer: string, now: int, before: Db)
    requires promote != []
    requires before == db.(mappings := Rewritten(db.mappings, Approved(db.mappings, promote[..|promote| - 1], reviewer, now)))
    requires forall p | p in promote[..|promote| - 1] :: AwaitsApproval(db.mappings, p.0)
    requires |PromotedIds(promote[..|promote| - 1])| == |promote| - 1
    ensures var after := ApproveOne(before, promote[|promote| - 1].0, promote[|promote| - 1].1, reviewer, now);
            after.Some? ==>
              && after.value == db.(mappings := Rewritten(db.mappings, Approved(db.mappings, promote, reviewer, now)))
              && (forall p | p in promote :: AwaitsApproval(db.mappings, p.0))
              && |PromotedIds(promote)| == |promote|
  {
    var front, last := promote[..|promote| - 1], promote[|promote| - 1];
    var changed := Approved(db.mappings, front, reviewer, now);
    FoundInRewritten(db.mappings, changed, last.0);
    if ApproveOne(before, last.0, last.1, reviewer, now).Some? {
      PromotedIdsOneMore(db.mappings, promote);
      assert last.0 !in PromotedIds(front);
      var m := MappingById(db.mappings, last.0).value;
      ReplacedAfter(db.mappings, changed, Promoted(m, reviewer, now));
      ApprovedOneMore(db.mappings, promote, reviewer, now, m);
    }
  }

  lemma {:induction false} ApprovalAt(db: Db, rows: seq<PairRow>, all: seq<PairRow>, i: nat)
    requires i < |rows|
    ensures Approvals(db, rows, all)[i] == DecideApproval(db, rows[i], all, ClaimedPairs(rows[..i], all))
  {
    var n := |rows| - 1;
    if i < n {
      ApprovalAt(db, rows[..n], all, i);
      assert rows[..n][..i] == rows[..i];
    }
  }

  lemma {:induction false} PromotionsAreListed(decisions: seq<ApprovalDecision>, id: nat, districtId: nat)
    requires Promote(id, districtId) in decisions
    ensures (id, districtId) in Promotions(decisions)
  {
    var n := |decisions| - 1;
    assert decisions == decisions[..n] + [decisions[n]];
    if decisions[n] != Promote(id, districtId) {
      PromotionsAreListed(decisions[..n], id, districtId);
    }
  }

  /** An active row of the pair is MATCHED. */
  ghost predicate IsApproved(db: Db, r: PairRow) {
    exists m | m in db.mappings ::
      Resolves(m) && OfDistrict(db, m, r.districtCode) && OnDestination(db, m, r.jneCode)
  }

  lemma {:induction false} RowById(db: Db, m: Mapping)
    requires WellFormed(db) && m in db.mappings
    ensures MappingById(db.mappings, m.id) == Some(m)
  {
    var i :| 0 <= i < |db.mappings| && db.mappings[i] == m;
    FoundMapping(db.mappings, i);
  }

  lemma {:induction false} RowAfterApproval(db: Db, promote: seq<(nat, nat)>, reviewer: string, now: int, k: nat)
    requires WellFormed(db) && ApproveAll(db, promote, reviewer, now).Some? && k < |db.mappings|
    ensures var after := ApproveAll(db, promote, reviewer, now).value;
            && |after.mappings| == |db.mappings| && SameRow(db.mappings[k], after.mappings[k])
            && after.locations == db.locations && after.districts == db.districts
            && after.mappings[k].isActive == db.mappings[k].isActive
            && (db.mappings[k].status == MATCHED || db.mappings[k].id in PromotedIds(promote) ==> after.mappings[k].status == MATCHED)
  {
    ApprovalEffect(db, promote, reviewer, now);
    RowById(db, db.mappings[k]);
  }

  /** A row that resolves, or is promoted, resolves its pair afterwards. */
  lemma {:induction false} ResolvesAfterApproval(db: Db, promote: seq<(nat, nat)>, reviewer: string, now: int,
                                                 m: Mapping, r: PairRow)
    requires WellFormed(db) && ApproveAll(db, promote, reviewer, now).Some?
    requires m in db.mappings && OfDistrict(db, m, r.districtCode) && OnDestination(db, m, r.jneCode)
    requires m.isActive && (m.status == MATCHED || m.id in PromotedIds(promote))
    ensures IsApproved(ApproveAll(db, promote, reviewer, now).value, r)
  {
    var i :| 0 <= i < |db.mappings| && db.mappings[i] == m;
    RowAfterApproval(db, promote, reviewer, now, i);
    var after := ApproveAll(db, promote, reviewer, now).value;
    assert after.mappings[i] in after.mappings;
  }

  /** Where no row was refused, a listed pair has an active row that is MATCHED or is to be promoted. */
  lemma {:induction false} ListedHasItsRow(db: Db, rows: seq<PairRow>, i: nat) returns (m: Mapping)
    requires i < |rows| && forall d | d in Approvals(db, rows, rows) :: !d.RefuseApproval?
    ensures m in db.mappings && OfDistrict(db, m, rows[i].districtCode) && OnDestination(db, m, rows[i].jneCode)
    ensures m.isActive && (m.status == MATCHED || m.id in PromotedIds(Promotions(Approvals(db, rows, rows))))
  {
    var decisions, r := Approvals(db, rows, rows), rows[i];
    ApprovalAt(db, rows, rows, i);
    assert decisions[i] in decisions;
    if decisions[i].AlreadyApproved? {
      m :| m in db.mappings && OfDistrict(db, m, r.districtCode) && OnDestination(db, m, r.jneCode)
           && m.status == MATCHED && m.isActive;
    } else {
      m := PendingPair(db, db.mappings, r).value;
      PromotionsAreListed(decisions, m.id, m.districtId);
      assert (m.id, m.districtId).0 == m.id;
    }
  }

  /** An undisturbed approval that commits leaves every pair it lists approved. */
  lemma {:induction false} EveryListedPairIsApproved(db: Db, rows: seq<PairRow>, reviewer: string, now: int, i: nat)
    requires WellFormed(db) && ApproveTransaction(db, db, rows, reviewer, now).Some? && i < |rows|
    ensures IsApproved(ApproveTransaction(db, db, rows, reviewer, now).value, rows[i])
  {
    var m := ListedHasItsRow(db, rows, i);
    ResolvesAfterApproval(db, Promotions(Approvals(db, rows, rows)), Text.Trim(reviewer), now, m, rows[i]);
  }

  // ------------------------------------------------------------- deactivation

  function TargetIds(targets: seq<Mapping>): set<nat> {
    set t | t in targets :: t.id
  }

  function TurnedOff(rows: seq<Mapping>, targets: seq<Mapping>, note: string, now: int): map<nat, Mapping> {
    map id | id in TargetIds(targets) && MappingById(rows, id).Some? && MappingById(targets, id).Some? ::
      MappingById(rows, id).value.(isActive := false, notes := Noted(MappingById(targets, id).value.notes, note), updatedAt := now)
  }

  /** The row is as the decision saw it. */
  predicate IsAsSeen(rows: seq<Mapping>, t: Mapping) {
    var m := MappingById(rows, t.id);
    m.Some? && m.value.isActive && m.value.status == t.status && m.value.updatedAt == t.updatedAt
  }

  lemma {:induction false} TargetIdsOneMore(rows: seq<Mapping>, targets: seq<Mapping>)
    requires targets != []
    ensures TargetIds(targets) == TargetIds(targets[..|targets| - 1]) + {targets[|targets| - 1].id}
    ensures (forall x | x in targets :: IsAsSeen(rows, x))
       <==> (forall x | x in targets[..|targets| - 1] :: IsAsSeen(rows, x)) && IsAsSeen(rows, targets[|targets| - 1])
  {
    assert targets == targets[..|targets| - 1] + [targets[|targets| - 1]];
  }

  lemma {:induction false} TurnedOffOneMore(rows: seq<Mapping>, targets: seq<Mapping>, note: string, now: int, m: Mapping)
    requires targets != [] && MappingById(rows, targets[|targets| - 1].id) == Some(m)
    ensures var n := |targets| - 1;
            TurnedOff(rows, targets, note, now)
            == TurnedOff(rows, targets[..n], note, now)[m.id := m.(isActive := false, notes := Noted(targets[n].notes, note), updatedAt := now)]
  {
    var n := |targets| - 1;
    var front, last := targets[..n], targets[n];
    TargetIdsOneMore(rows, targets);
    var all, fewer := TurnedOff(rows, targets, note, now), TurnedOff(rows, front, note, now);
    forall id | id != last.id
      ensures id in all <==> id in fewer
      ensures id in all ==> all[id] == fewer[id]
    {
      assert MappingById(targets, id) == MappingById(front, id);
    }
    assert m.id in all;
  }

  /**
   * A committed deactivation turns off exactly the rows it targets: each was active and as decided on, is inactive with the
   * note added, and is targeted once; no other row, location or district moves.
   */
  lemma {:induction false} DeactivationEffect(db: Db, targets: seq<Mapping>, note: string, now: int)
    ensures var after := DeactivateAll(db, targets, note, now);
            after.Some? ==>
              && after.value == db.(mappings := Rewritten(db.mappings, TurnedOff(db.mappings, targets, note, now)))
              && (forall t | t in targets :: IsAsSeen(db.mappings, t))
              && |TargetIds(targets)| == |targets|
  {
    if targets == [] {
      assert Rewritten(db.mappings, map[]) == db.mappings;
    } else {
      var before := DeactivateAll(db, targets[..|targets| - 1], note, now);
      if before.Some? {
        DeactivationEffect(db, targets[..|targets| - 1], note, now);
        DeactivationStepEffect(db, targets, note, now, before.value);
      }
    }
  }

  lemma {:induction false} DeactivationStepEffect(db: Db, targets: seq<Mapping>, note: string, now: int, before: Db)
    requires targets != []
    requires before == db.(mappings := Rewritten(db.mappings, TurnedOff(db.mappings, targets[..|targets| - 1], note, now)))
    requires forall t | t in targets[..|targets| - 1] :: IsAsSeen(db.mappings, t)
    requires |TargetIds(targets[..|targets| - 1])| == |targets| - 1
    ensures var after := DeactivateOne(before, targets[|targets| - 1], note, now);
            after.Some? ==>
              && after.value == db.(mappings := Rewritten(db.mappings, TurnedOff(db.mappings, targets, note, now)))
              && (forall t | t in targets :: IsAsSeen(db.mappings, t))
              && |TargetIds(targets)| == |targets|
  {
    var front, last := targets[..|targets| - 1], targets[|targets| - 1];
    var changed := TurnedOff(db.mappings, front, note, now);
    FoundInRewritten(db.mappings, changed, last.id);
    if DeactivateOne(before, last, note, now).Some? {
      TargetIdsOneMore(db.mappings, targets);
      NotTargetedBefore(db, front, note, now, last.id);
      var m := MappingById(db.mappings, last.id).value;
      ReplacedAfter(db.mappings, changed, m.(isActive := false, notes := Noted(last.notes, note), updatedAt := now));
      TurnedOffOneMore(db.mappings, targets, note, now, m);
    }
  }

  /** A row already turned off is not found active again. */
  lemma {:induction false} NotTargetedBefore(db: Db, targets: seq<Mapping>, note: string, now: int, id: nat)
    requires MappingById(Rewritten(db.mappings, TurnedOff(db.mappings, targets, note, now)), id).Some?
    requires MappingById(Rewritten(db.mappings, TurnedOff(db.mappings, targets, note, now)), id).value.isActive
    ensures id !in TargetIds(targets) && id !in TurnedOff(db.mappings, targets, note, now)
  {
    FoundInRewritten(db.mappings, TurnedOff(db.mappings, targets, note, now), id);
    if id in TargetIds(targets) {
      var t :| t in targets && t.id == id;
      FoundTarget(targets, t);
    }
  }

  lemma {:induction false} DeactivationAt(db: Db, rows: seq<PairRow>, all: seq<PairRow>, i: nat)
    requires i < |rows|
    ensures Deactivations(db, rows, all)[i] == DecideDeactivation(db, rows[i], all, ListedPairs(rows[..i], all))
  {
    var n := |rows| - 1;
    if i < n {
      DeactivationAt(db, rows[..n], all, i);
      assert rows[..n][..i] == rows[..i];
    }
  }

  lemma {:induction false} TargetsAreListed(decisions: seq<DeactivationDecision>, m: Mapping)
    requires DeactivateMapping(m) in decisions
    ensures m in DeactivationTargets(decisions)
  {
    var n := |decisions| - 1;
    assert decisions == decisions[..n] + [decisions[n]];
    if decisions[n] != DeactivateMapping(m) {
      TargetsAreListed(decisions[..n], m);
    }
  }

  lemma {:induction false} PairMappingsAreAll(db: Db, rows: seq<Mapping>, r: PairRow, m: Mapping)
    requires m in rows && OfDistrict(db, m, r.districtCode) && OnDestination(db, m, r.jneCode)
    ensures m in PairMappings(db, rows, r)
  {
    var n := |rows| - 1;
    assert rows == rows[..n] + [rows[n]];
    if m != rows[n] {
      PairMappingsAreAll(db, rows[..n], r, m);
    }
  }

  /** Where no row was refused, an active mapping on a listed pair is to be turned off. */
  lemma {:induction false} ActiveIsTargeted(db: Db, rows: seq<PairRow>, i: nat, m: Mapping)
    requires i < |rows| && forall d | d in Deactivations(db, rows, rows) :: !d.RefuseDeactivation?
    requires m in db.mappings && OfDistrict(db, m, rows[i].districtCode) && OnDestination(db, m, rows[i].jneCode) && m.isActive
    ensures m in DeactivationTargets(Deactivations(db, rows, rows))
  {
    var decisions, r := Deactivations(db, rows, rows), rows[i];
    DeactivationAt(db, rows, rows, i);
    assert decisions[i] in decisions;
    PairMappingsAreAll(db, db.mappings, r, m);
    assert PairMappings(db, db.mappings, r) == [m];
    TargetsAreListed(decisions, m);
  }

  lemma {:induction false} RowAfterDeactivation(db: Db, targets: seq<Mapping>, note: string, now: int, k: nat)
    requires WellFormed(db) && DeactivateAll(db, targets, note, now).Some? && k < |db.mappings|
    ensures var after := DeactivateAll(db, targets, note, now).value;
            && |after.mappings| == |db.mappings| && SameRow(db.mappings[k], after.mappings[k])
            && after.locations == db.locations && after.districts == db.districts
            && (after.mappings[k].isActive ==> db.mappings[k].isActive && db.mappings[k] !in targets)
  {
    DeactivationEffect(db, targets, note, now);
    var m := db.mappings[k];
    RowById(db, m);
    if m in targets {
      FoundTarget(targets, m);
    }
  }

  /** An undisturbed deactivation that commits leaves no active mapping on any pair it lists. */
  lemma {:induction false} EveryListedPairIsInactive(db: Db, rows: seq<PairRow>, note: string, expectCount: nat,
                                                     now: int, i: nat, k: nat)
    requires WellFormed(db) && DeactivateMappings(db, db, rows, note, expectCount, now).Some? && i < |rows|
    requires var after := DeactivateMappings(db, db, rows, note, expectCount, now).value;
             && k < |after.mappings|
             && OfDistrict(after, after.mappings[k], rows[i].districtCode) && OnDestination(after, after.mappings[k], rows[i].jneCode)
    ensures !DeactivateMappings(db, db, rows, note, expectCount, now).value.mappings[k].isActive
  {
    var targets := DeactivationTargets(Deactivations(db, rows, rows));
    assert DeactivateMappings(db, db, rows, note, expectCount, now) == DeactivateAll(db, targets, note, now);
    DeactivationEffect(db, targets, note, now);
    RowAfterDeactivation(db, targets, note, now, k);
    if db.mappings[k].isActive {
      ActiveIsTargeted(db, rows, i, db.mappings[k]);
    }
  }

  lemma {:induction false} FoundTarget(targets: seq<Mapping>, m: Mapping)
    requires m in targets
    ensures m.id in TargetIds(targets) && MappingById(targets, m.id).Some?
  {
  }

  // ------------------------------------------------------------- reactivation

  function ReviewedIds(rows: seq<ReviewRow>): set<nat> {
    set r | r in rows :: r.mappingId
  }

  /** The last review of a mapping. */
  function ReviewById(rows: seq<ReviewRow>, id: nat): (r: Option<ReviewRow>)
    ensures r.Some? <==> id in ReviewedIds(rows)
  {
    if rows == [] then None
    else
      assert rows == rows[..|rows| - 1] + [rows[|rows| - 1]];
      if rows[|rows| - 1].mappingId == id then Some(rows[|rows| - 1]) else ReviewById(rows[..|rows| - 1], id)
  }

  function TurnedOn(rows: seq<Mapping>, reviews: seq<ReviewRow>, now: int): map<nat, Mapping> {
    map id | id in ReviewedIds(reviews) && MappingById(rows, id).Some? ::
      var m := MappingById(rows, id).value;
      m.(isActive := true, notes := Noted(m.notes, Note(ReviewById(reviews, id).value)), updatedAt := now)
  }

  predicate IsAsReviewed(rows: seq<Mapping>, r: ReviewRow) {
    var m := MappingById(rows, r.mappingId);
    m.Some? && !m.value.isActive && r.expectedUpdatedAt == Some(m.value.updatedAt)
  }

  lemma {:induction false} ReviewedIdsOneMore(rows: seq<Mapping>, reviews: seq<ReviewRow>)
    requires reviews != []
    ensures ReviewedIds(reviews) == ReviewedIds(reviews[..|reviews| - 1]) + {reviews[|reviews| - 1].mappingId}
    ensures (forall x | x in reviews :: IsAsReviewed(rows, x))
       <==> (forall x | x in reviews[..|reviews| - 1] :: IsAsReviewed(rows, x)) && IsAsReviewed(rows, reviews[|reviews| - 1])
  {
    assert reviews == reviews[..|reviews| - 1] + [reviews[|reviews| - 1]];
  }

  lemma {:induction false} TurnedOnOneMore(rows: seq<Mapping>, reviews: seq<ReviewRow>, now: int, m: Mapping)
    requires reviews != [] && MappingById(rows, reviews[|reviews| - 1].mappingId) == Some(m)
    ensures var n := |reviews| - 1;
            TurnedOn(rows, reviews, now)
            == TurnedOn(rows, reviews[..n], now)[m.id := m.(isActive := true, notes := Noted(m.notes, Note(reviews[n])), updatedAt := now)]
  {
    ReviewedIdsOneMore(rows, reviews);
  }

  /** A committed reactivation brings back exactly the rows reviewed, each once and each found as reviewed. */
  lemma {:induction false} ReactivationEffect(db: Db, reviews: seq<ReviewRow>, now: int)
    ensures var after := ReactivateAll(db, reviews, now);
            after.Some? ==>
              && after.value == db.(mappings := Rewritten(db.mappings, TurnedOn(db.mappings, reviews, now)))
              && (forall r | r in reviews :: IsAsReviewed(db.mappings, r))
              && |ReviewedIds(reviews)| == |reviews|
  {
    if reviews == [] {
      assert Rewritten(db.mappings, map[]) == db.mappings;
    } else {
      var before := ReactivateAll(db, reviews[..|reviews| - 1], now);
      if before.Some? {
        ReactivationEffect(db, reviews[..|reviews| - 1], now);
        ReactivationStepEffect(db, reviews, now, before.value);
      }
    }
  }

  lemma {:induction false} ReactivationStepEffect(db: Db, reviews: seq<ReviewRow>, now: int, before: Db)
    requires reviews != []
    requires before == db.(mappings := Rewritten(db.mappings, TurnedOn(db.mappings, reviews[..|reviews| - 1], now)))
    requires forall r | r in reviews[..|reviews| - 1] :: IsAsReviewed(db.mappings, r)
    requires |ReviewedIds(reviews[..|reviews| - 1])| == |reviews| - 1
    ensures var after := ReactivateOne(before, reviews[|reviews| - 1], now);
            after.Some? ==>
              && after.value == db.(mappings := Rewritten(db.mappings, TurnedOn(db.mappings, reviews, now)))
              && (forall r | r in reviews :: IsAsReviewed(db.mappings, r))
              && |ReviewedIds(reviews)| == |reviews|
  {
    var front, last := reviews[..|reviews| - 1], reviews[|reviews| - 1];
    var changed := TurnedOn(db.mappings, front, now);
    FoundInRewritten(db.mappings, changed, last.mappingId);
    if ReactivateOne(before, last, now).Some? {
      ReviewedIdsOneMore(db.mappings, reviews);
      assert last.mappingId !in ReviewedIds(front);
      var m := MappingById(db.mappings, last.mappingId).value;
      ReplacedAfter(db.mappings, changed, m.(isActive := true, notes := Noted(m.notes, Note(last)), updatedAt := now));
      TurnedOnOneMore(db.mappings, reviews, now, m);
    }
  }
}
