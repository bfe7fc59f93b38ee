/** The import run and the deactivation run. */
module MasterRun {
  // The two runs that write the master: an import of a reviewed plan, and the deactivation of missing
  // codes. Each plans from one read, and then works in a transaction on whatever the database holds by
  // then; `meanwhile` is that later state, as other writers left it.

  import opened Wrappers
  import opened JneMaster
  import opened JneDatabase
  import opened MasterPlan
  import opened MasterPlanFacts
  import opened MasterImport
  import opened MasterVerify
  import opened MasterFixpoint
  import Text

  datatype Outcome = Refused | NothingToWrite | RolledBack | Committed

  // ------------------------------------------------------------- import

  /** Writes and checks; a short count or a wrong result leaves everything as it was. */
  method WriteChecked(store: MasterStore, p: Plan, before: MasterState, now: int) returns (ok: bool)
    requires Writable(p, store.db.nextId) && References(store.db) && before == ReadMasterState(store.db)
    modifies store
    ensures !ok ==> store.db == old(store.db)
    ensures ok ==>
              && store.db == Written(old(store.db), p, now) && References(store.db)
              && VerifyWritten(p, before, ReadMasterState(store.db))
    ensures (&& Applies(old(store.db.locations), p)
             && (forall l | l in old(store.db.locations) :: l.id < old(store.db.nextId))
             && References(Written(old(store.db), p, now))
             && VerifyWritten(p, before, ReadMasterState(Written(old(store.db), p, now)))) ==> ok
  {
    var saved := store.db;
    ok := WritePlan(store, p, now);
    if ok {
      WrittenKeepsReferences(saved, p, now);
      ok := VerifyWritten(p, before, ReadMasterState(store.db));
    }
    if !ok {
      store.db := saved;
    }
  }

  /** The transaction of an import: rebuild the plan, compare it with the one reviewed, write, check. */
  method ImportTransaction(store: MasterStore, r: Request, reviewed: PlanIdentity, now: int) returns (committed: bool)
    requires WellFormed(store.db) && FromSnapshot(r)
    modifies store
    ensures var again := PlanMaster(r, ReadMasterState(old(store.db)));
            && (committed <==> again.planSha256 == reviewed && again.blockers == [])
            && (committed ==> r.sourceFetchedAt.Some? && store.db == Written(old(store.db), again, now))
    ensures !committed ==> store.db == old(store.db)
  {
    var before := ReadMasterState(store.db);
    var again := PlanMasterImport(r, before);
    if again.planSha256 != reviewed || again.blockers != [] {
      return false;
    }
    BlockerFreeIsReviewed(r, before, again.updated, again.missing, |again.created| + |again.updated|, again.planSha256);
    PlanApplies(r, store.db);
    WrittenIsVerified(r, store.db, now);
    committed := WriteChecked(store, again, before, now);
  }

  /**
   * Plans, and writes only a blocker-free plan that the transaction finds again unchanged. Nothing is
   * ever half written, and an undisturbed import of such a plan commits.
   */
  method RunImport(store: MasterStore, r: Request, meanwhile: Db, now: int) returns (outcome: Outcome, written: nat)
    requires WellFormed(store.db) && WellFormed(meanwhile) && FromSnapshot(r)
    modifies store
    ensures var plan := PlanMaster(r, ReadMasterState(old(store.db)));
            var again := PlanMaster(r, ReadMasterState(meanwhile));
            && (outcome.Refused? <==> plan.blockers != [])
            && (outcome.NothingToWrite? <==> plan.blockers == [] && plan.created == [] && plan.updated == [])
            && (outcome.Committed? ==>
                  && again.planSha256 == plan.planSha256 && again.blockers == []
                  && r.sourceFetchedAt.Some? && store.db == Written(meanwhile, again, now)
                  && written == |plan.created| + |plan.updated|)
            && (meanwhile == old(store.db) ==> !outcome.RolledBack?)
    ensures outcome.Refused? || outcome.NothingToWrite? ==> store.db == old(store.db) && written == 0
    ensures outcome.RolledBack? ==> store.db == meanwhile && written == 0
  {
    var plan := PlanMasterImport(r, ReadMasterState(store.db));
    written := 0;
    if plan.blockers != [] {
      return Refused, 0;
    }
    if |plan.created| + |plan.updated| == 0 {
      return NothingToWrite, 0;
    }
    store.db := meanwhile;
    var committed := ImportTransaction(store, r, plan.planSha256, now);
    if !committed {
      return RolledBack, 0;
    }
    outcome, written := Committed, |plan.created| + |plan.updated|;
  }

  /** The seeds are those of the request's own inspection. */
  ghost predicate SeedsAreInspected(r: Request, derive: string -> DerivedName) {
    r.seeds == ToSeeds(r.inspection.rows, r.kind, r.source, derive)
  }

  /** The seed that a code and a raw name make. */
  function SeedFor(identity: (string, string), kind: Kind, source: Source, derive: string -> DerivedName): Seed {
    ToSeed(MasterRow(identity.1, identity.0), kind, source, derive)
  }

  lemma {:induction false} InspectedSeed(r: Request, derive: string -> DerivedName, s: Seed)
    requires SeedsAreInspected(r, derive) && s in r.seeds
    ensures s == SeedFor((s.code, s.rawName), r.kind, r.source, derive)
  {
    var i :| 0 <= i < |r.seeds| && r.seeds[i] == s;
    assert s == ToSeed(r.inspection.rows[i], r.kind, r.source, derive);
    assert r.inspection.rows[i] == MasterRow(s.rawName, s.code);
  }

  lemma {:induction false} CreatedByIdentity(a: seq<Seed>, b: seq<Seed>, r1: Request, r2: Request,
                                             derive: string -> DerivedName)
    requires SeedsAreInspected(r1, derive) && SeedsAreInspected(r2, derive) && r1.kind == r2.kind && r1.source == r2.source
    requires CreatedIdentity(a) == CreatedIdentity(b)
    requires (forall s | s in a :: s in r1.seeds) && (forall s | s in b :: s in r2.seeds)
    ensures a == b
  {
    assert |a| == |CreatedIdentity(a)| == |b|;
    forall i | 0 <= i < |a| ensures a[i] == b[i] {
      assert CreatedIdentity(a)[i] == CreatedIdentity(b)[i];
      assert a[i] in a && b[i] in b;
      InspectedSeed(r1, derive, a[i]);
      InspectedSeed(r2, derive, b[i]);
    }
  }

  ghost predicate ForSeeds(updated: seq<Update>, r: Request) {
    forall u | u in updated :: u.seed in r.seeds && u.seed.code == u.code
  }

  lemma {:induction false} UpdatedByIdentity(a: seq<Update>, b: seq<Update>, r1: Request, r2: Request,
                                             derive: string -> DerivedName)
    requires SeedsAreInspected(r1, derive) && SeedsAreInspected(r2, derive) && r1.kind == r2.kind && r1.source == r2.source
    requires UpdatedIdentity(a) == UpdatedIdentity(b) && ForSeeds(a, r1) && ForSeeds(b, r2)
    ensures a == b
  {
    assert |a| == |UpdatedIdentity(a)| == |b|;
    forall i | 0 <= i < |a| ensures a[i] == b[i] {
      assert UpdatedIdentity(a)[i] == UpdatedIdentity(b)[i];
      assert a[i] in a && b[i] in b;
      InspectedSeed(r1, derive, a[i].seed);
      InspectedSeed(r2, derive, b[i].seed);
    }
  }

  lemma {:induction false} UpdatesAreForSeeds(r: Request, state: MasterState)
    ensures ForSeeds(PlanMaster(r, state).updated, r)
  {
    UpdatedFacts(r.seeds, state.existing, r);
    forall u | u in PlanMaster(r, state).updated ensures u.seed in r.seeds && u.seed.code == u.code {
      assert IsUpdate(u, r.seeds, state.existing, r);
    }
  }

  /** Two plans under one hash write the same rows and protect the same rows, whatever snapshots they were made of. */
  lemma {:induction false} SameHashSamePlan(r1: Request, s1: MasterState, r2: Request, s2: MasterState,
                                            derive: string -> DerivedName)
    requires SeedsAreInspected(r1, derive) && SeedsAreInspected(r2, derive)
    requires PlanMaster(r1, s1).planSha256 == PlanMaster(r2, s2).planSha256
    ensures var a, b := PlanMaster(r1, s1), PlanMaster(r2, s2);
            && a.created == b.created && a.updated == b.updated && a.missing == b.missing
            && a.protectedFingerprint == b.protectedFingerprint
            && r1.kind == r2.kind && r1.source == r2.source && r1.sourceFetchedAt == r2.sourceFetchedAt
  {
    var a, b := PlanMaster(r1, s1), PlanMaster(r2, s2);
    CreatedFacts(r1.seeds, s1.existing, r1.kind);
    CreatedFacts(r2.seeds, s2.existing, r2.kind);
    CreatedByIdentity(a.created, b.created, r1, r2, derive);
    UpdatesAreForSeeds(r1, s1);
    UpdatesAreForSeeds(r2, s2);
    UpdatedByIdentity(a.updated, b.updated, r1, r2, derive);
  }

  lemma {:induction false} SameWrite(db: Db, a: Plan, b: Plan, now: int)
    requires a.created == b.created && a.updated == b.updated && a.kind == b.kind && a.source == b.source
    requires a.sourceFetchedAt == b.sourceFetchedAt && a.sourceFetchedAt.Some?
    ensures Written(db, a, now) == Written(db, b, now)
  {
    assert RewriteAll(db.locations, a.updated, a, now) == RewriteAll(db.locations, b.updated, b, now);
  }

  lemma {:induction false} PlannedIsReviewed(r: Request, planned: MasterState, p: Plan)
    requires r.requireExpectations && p == PlanMaster(r, planned) && p.blockers == [] && |p.created| + |p.updated| > 0
    ensures r.sourceFetchedAt.Some? && r.expected.plan == Some(p.planSha256)
  {
    BlockerFreeIsReviewed(r, planned, p.updated, p.missing, |p.created| + |p.updated|, p.planSha256);
  }

  /**
   * Reviewed plan only. A reviewer saw the plan `seen` of a dry run and passed its hash on; the run
   * planned `planned` and its transaction committed `again`. Whatever happened to the database in
   * between, the committed state is the one the plan the reviewer saw describes.
   */
  lemma {:induction false} ReviewedPlanOnly(dry: Request, at: MasterState, seen: Plan, r: Request, planned: MasterState,
                                            p: Plan, db: Db, again: Plan, now: int, derive: string -> DerivedName)
    requires WellFormed(db) && SeedsAreInspected(r, derive) && SeedsAreInspected(dry, derive) && r.requireExpectations
    requires seen == PlanMaster(dry, at) && r.expected.plan == Some(seen.planSha256)
    requires p == PlanMaster(r, planned) && p.blockers == [] && |p.created| + |p.updated| > 0
    requires again == PlanMaster(r, ReadMasterState(db)) && again.planSha256 == p.planSha256 && again.blockers == []
    ensures again.created == seen.created && again.updated == seen.updated
    ensures again.sourceFetchedAt.Some? && seen.sourceFetchedAt.Some? && Written(db, again, now) == Written(db, seen, now)
  {
    PlannedIsReviewed(r, planned, p);
    SameHashSamePlan(r, ReadMasterState(db), dry, at, derive);
    SameWrite(db, again, seen, now);
  }

  /** The same import run twice: once the first has committed, the second finds nothing to write. */
  method RunImportTwice(store: MasterStore, r: Request, meanwhile: Db, now: int, later: int)
    returns (first: Outcome, second: Outcome)
    requires WellFormed(store.db) && WellFormed(meanwhile) && FromSnapshot(r)
    modifies store
    ensures first.Committed? ==>
              && second.NothingToWrite? && r.sourceFetchedAt.Some?
              && store.db == Written(meanwhile, PlanMaster(r, ReadMasterState(meanwhile)), now)
  {
    var written: nat;
    first, written := RunImport(store, r, meanwhile, now);
    if first.Committed? {
      ImportIsAFixpoint(r, meanwhile, now);
    }
    second, written := RunImport(store, r, store.db, later);
  }

  // ------------------------------------------------------------- deactivating missing codes

  const REASON_MIN := 10

  datatype Deactivation = Deactivation(codes: seq<string>, expectCount: Option<nat>, reason: string, operator: string)

  datatype Refusal =
    | WrongCount
    | NoReason
    | NoOperator
    | Blocked(code: BlockerCode)
    | ImportFirst
    | NotMissing(jneCode: string)
    | AlreadyInactive(jneCode: string)
    | StillMapped(jneCode: string)

  function BlockedBy(blockers: seq<BlockerCode>): seq<Refusal> {
    seq(|blockers|, i requires 0 <= i < |blockers| => Blocked(blockers[i]))
  }

  function CodeRefusals(codes: seq<string>, missing: seq<Missing>): seq<Refusal> {
    if codes == [] then []
    else
      var code := codes[|codes| - 1];
      CodeRefusals(codes[..|codes| - 1], missing) +
      match MissingByCode(missing, code)
      case None => [NotMissing(code)]
      case Some(m) =>
        if !m.isActive then [AlreadyInactive(code)]
        else if m.activeMatched + m.activeReview > 0 then [StillMapped(code)]
        else []
  }

  function RequestRefusals(p: Plan, d: Deactivation): seq<Refusal> {
    (if d.expectCount != Some(|d.codes|) then [WrongCount] else [])
    + (if |Text.Trim(d.reason)| < REASON_MIN then [NoReason] else [])
    + (if Text.Trim(d.operator) == "" then [NoOperator] else [])
    + BlockedBy(p.blockers)
    + (if |p.created| + |p.updated| > 0 then [ImportFirst] else [])
  }

  function Refusals(p: Plan, d: Deactivation): seq<Refusal> {
    RequestRefusals(p, d) + CodeRefusals(d.codes, p.missing)
  }

  method DeactivationRefusals(p: Plan, d: Deactivation) returns (refused: seq<Refusal>)
    ensures refused == Refusals(p, d)
  {
    refused := RequestRefusals(p, d);
    for i := 0 to |d.codes|
      invariant refused == RequestRefusals(p, d) + CodeRefusals(d.codes[..i], p.missing)
    {
      assert d.codes[..i + 1][..i] == d.codes[..i];
      var code := d.codes[i];
      match MissingByCode(p.missing, code)
      case None => refused := refused + [NotMissing(code)];
      case Some(m) =>
        if !m.isActive {
          refused := refused + [AlreadyInactive(code)];
        } else if m.activeMatched + m.activeReview > 0 {
          refused := refused + [StillMapped(code)];
        }
    }
    assert d.codes[..|d.codes|] == d.codes;
  }

  /** The ids of the missing rows whose code is listed. */
  function TargetIds(missing: seq<Missing>, codes: seq<string>): set<nat> {
    set m | m in missing && m.code in codes :: m.id
  }

  function Deactivated(l: Location, ids: set<nat>, kind: Kind, now: int): Location {
    if l.id in ids && l.kind == kind && l.isActive then l.(isActive := false, updatedAt := now) else l
  }

  function DeactivateRows(rows: seq<Location>, ids: set<nat>, kind: Kind, now: int): (r: seq<Location>)
    ensures |r| == |rows|
  {
    seq(|rows|, i requires 0 <= i < |rows| => Deactivated(rows[i], ids, kind, now))
  }

  function CountDeactivated(rows: seq<Location>, ids: set<nat>, kind: Kind): nat {
    if rows == [] then 0
    else
      var l := rows[|rows| - 1];
      CountDeactivated(rows[..|rows| - 1], ids, kind) + if l.id in ids && l.kind == kind && l.isActive then 1 else 0
  }

  /** The state with the listed missing codes of the plan `again` inactive. */
  function WithoutCodes(db: Db, r: Request, d: Deactivation, again: Plan, now: int): Db {
    db.(locations := DeactivateRows(db.locations, TargetIds(again.missing, d.codes), r.kind, now))
  }

  predicate MayDeactivate(db: Db, r: Request, d: Deactivation, again: Plan, now: int) {
    && Refusals(again, d) == []
    && CountDeactivated(db.locations, TargetIds(again.missing, d.codes), r.kind) == |d.codes|
    && LocationFingerprint(Protected(WithoutCodes(db, r, d, again, now).locations, r.kind)) == again.protectedFingerprint
  }

  /** The transaction: decide again from what it sees, deactivate all listed codes, check, or leave all as it is. */
  function DeactivateTransaction(db: Db, r: Request, d: Deactivation, now: int): Option<Db>
    requires forall m | m in db.mappings ::
               LocationById(db.locations, m.locationId).Some? && DistrictById(db.districts, m.districtId).Some?
  {
    var again := PlanMaster(r, ReadMasterState(db));
    if MayDeactivate(db, r, d, again, now) then Some(WithoutCodes(db, r, d, again, now)) else None
  }

  method RunDeactivateMissing(store: MasterStore, r: Request, d: Deactivation, confirm: bool, meanwhile: Db, now: int)
    returns (outcome: Outcome, refused: seq<Refusal>)
    requires WellFormed(store.db) && WellFormed(meanwhile)
    modifies store
    ensures refused == Refusals(PlanMaster(r, ReadMasterState(old(store.db))), d)
    ensures outcome.Refused? <==> refused != []
    ensures outcome.NothingToWrite? <==> refused == [] && !confirm
    ensures outcome.Refused? || outcome.NothingToWrite? ==> store.db == old(store.db)
    ensures outcome.RolledBack? ==> DeactivateTransaction(meanwhile, r, d, now).None? && store.db == meanwhile
    ensures outcome.Committed? ==> DeactivateTransaction(meanwhile, r, d, now) == Some(store.db)
  {
    var plan := PlanMasterImport(r, ReadMasterState(store.db));
    refused := DeactivationRefusals(plan, d);
    if refused != [] {
      return Refused, refused;
    }
    if !confirm {
      return NothingToWrite, refused;
    }
    store.db := meanwhile;
    var again := PlanMasterImport(r, ReadMasterState(store.db));
    var problems := DeactivationRefusals(again, d);
    var ids := TargetIds(again.missing, d.codes);
    var count := CountDeactivated(store.db.locations, ids, again.kind);
    store.db := store.db.(locations := DeactivateRows(store.db.locations, ids, again.kind, now));
    if problems != [] || count != |d.codes|
       || LocationFingerprint(Protected(store.db.locations, again.kind)) != again.protectedFingerprint {
      store.db := meanwhile;
      return RolledBack, refused;
    }
    outcome := Committed;
  }

  lemma {:induction false} NoCodeRefused(codes: seq<string>, missing: seq<Missing>, code: string)
    requires CodeRefusals(codes, missing) == [] && code in codes
    ensures var m := MissingByCode(missing, code); m.Some? && m.value.isActive && m.value.activeMatched == 0 && m.value.activeReview == 0
  {
    var n := |codes| - 1;
    if code != codes[n] {
      assert codes == codes[..n] + [codes[n]];
      NoCodeRefused(codes[..n], missing, code);
    }
  }
}
