/** A finished import is a fixpoint. */
module MasterFixpoint {
  // Importing is a fixpoint: once a blocker-free plan is written, the same snapshot, reviews and
  // acknowledgments plan no write and raise no blocker.

  import opened Wrappers
  import opened JneMaster
  import opened JneDatabase
  import opened MasterPlan
  import opened MasterPlanFacts
  import opened MasterImport
  import opened MasterVerify

  // ------------------------------------------------------------- every seed is stored

  /** The stored row under a seed's code has nothing left to change. */
  ghost predicate SeedIsStored(r: Request, rows: seq<Location>, s: Seed) {
    && Existing(rows, r.kind, s.code).Some?
    && !ChangesOf(Existing(rows, r.kind, s.code).value, s, r.source, r.sourceFetchedAt).Any()
  }

  lemma SameCodeSameSeed(seeds: seq<Seed>, a: Seed, b: Seed)
    requires DistinctCodes(seeds) && a in seeds && b in seeds && a.code == b.code
    ensures a == b
  {
  }

  lemma UnchangedRowIsNotUpdated(r: Request, rows: seq<Location>, nextId: nat, s: Seed)
    requires FromSnapshot(r) && LocationKeys(rows, nextId) && s in r.seeds && SeedIsStored(r, rows, s)
    ensures UpdateById(UpdatedOf(r.seeds, rows, r), Existing(rows, r.kind, s.code).value.id).None?
  {
    var prev := Existing(rows, r.kind, s.code).value;
    var u := UpdateById(UpdatedOf(r.seeds, rows, r), prev.id);
    UpdatedFacts(r.seeds, rows, r);
    if u.Some? {
      assert IsUpdate(u.value, r.seeds, rows, r);
      var other := Existing(rows, r.kind, u.value.seed.code).value;
      assert other.id == prev.id && other == prev;
      SameCodeSameSeed(r.seeds, u.value.seed, s);
    }
  }

  lemma UnchangedStaysStored(r: Request, db: Db, p: Plan, now: int, s: Seed)
    requires WellFormed(db) && FromSnapshot(r) && r.sourceFetchedAt.Some? && p == PlanMaster(r, ReadMasterState(db))
    requires s in r.seeds && SeedIsStored(r, db.locations, s)
    ensures SeedIsStored(r, Written(db, p, now).locations, s)
  {
    assert Writable(p, db.nextId) && KeysAreFree(db.locations, p.created) by {
      PlanApplies(r, db);
    }
    WrittenKeys(db, p, now);
    var prev := Existing(db.locations, r.kind, s.code).value;
    var i :| 0 <= i < |db.locations| && db.locations[i] == prev;
    UnchangedRowIsNotUpdated(r, db.locations, db.nextId, s);
    WrittenRow(db, p, now, i);
    ExistingIsTheRow(Written(db, p, now).locations, i);
  }

  lemma WrittenSeedIsStored(r: Request, p: Plan, rows: seq<Location>, s: Seed)
    requires FromSnapshot(r) && s in r.seeds && SeedIsWritten(p, rows, s)
    requires p.kind == r.kind && p.source == r.source && p.sourceFetchedAt == r.sourceFetchedAt
    ensures SeedIsStored(r, rows, s)
  {
  }

  lemma EverySeedIsStored(r: Request, db: Db, now: int, s: Seed)
    requires WellFormed(db) && FromSnapshot(r) && r.sourceFetchedAt.Some? && s in r.seeds
    ensures SeedIsStored(r, Written(db, PlanMaster(r, ReadMasterState(db)), now).locations, s)
  {
    var p := PlanMaster(r, ReadMasterState(db));
    if SeedIsStored(r, db.locations, s) {
      UnchangedStaysStored(r, db, p, now, s);
    } else if Existing(db.locations, r.kind, s.code).None? {
      CreatedFacts(r.seeds, db.locations, r.kind);
      CreatedIsWritten(r, db, now, s);
      WrittenSeedIsStored(r, p, Written(db, p, now).locations, s);
    } else {
      UpdatedFacts(r.seeds, db.locations, r);
      UpdateIsWritten(r, db, now, UpdateOf(Existing(db.locations, r.kind, s.code).value, s, r));
      WrittenSeedIsStored(r, p, Written(db, p, now).locations, s);
    }
  }

  // ------------------------------------------------------------- the same codes are missing

  lemma {:induction false} MissingStays(rows: seq<Location>, r: Request, mappings: seq<MappingView>, p: Plan, now: int)
    requires p.sourceFetchedAt.Some?
    requires forall l | l in rows && IsMissing(l, r) :: UpdateById(p.updated, l.id).None?
    ensures MissingOf(RewriteAll(rows, p.updated, p, now), r, mappings) == MissingOf(rows, r, mappings)
  {
    if rows != [] {
      var n := |rows| - 1;
      assert rows == rows[..n] + [rows[n]];
      MissingStays(rows[..n], r, mappings, p, now);
      var all := RewriteAll(rows, p.updated, p, now);
      assert all[..n] == RewriteAll(rows[..n], p.updated, p, now);
    }
  }

  lemma {:induction false} NewRowsAreNotMissing(rows: seq<Location>, more: seq<Location>, r: Request,
                                                mappings: seq<MappingView>)
    requires forall l | l in more :: l.code in SeedCodes(r.seeds)
    ensures MissingOf(rows + more, r, mappings) == MissingOf(rows, r, mappings)
  {
    if more == [] {
      assert rows + more == rows;
    } else {
      var n := |more| - 1;
      assert more == more[..n] + [more[n]];
      assert (rows + more)[..|rows + more| - 1] == rows + more[..n];
      NewRowsAreNotMissing(rows, more[..n], r, mappings);
    }
  }

  lemma MissingIsNotUpdated(r: Request, rows: seq<Location>, nextId: nat, l: Location)
    requires FromSnapshot(r) && LocationKeys(rows, nextId) && l in rows && IsMissing(l, r)
    ensures UpdateById(UpdatedOf(r.seeds, rows, r), l.id).None?
  {
    UpdatedFacts(r.seeds, rows, r);
    var u := UpdateById(UpdatedOf(r.seeds, rows, r), l.id);
    assert u.Some? ==> IsUpdate(u.value, r.seeds, rows, r);
  }

  lemma SplitWritten(db: Db, p: Plan, now: int)
    requires p.sourceFetchedAt.Some?
    ensures Written(db, p, now).locations ==
            RewriteAll(db.locations, p.updated, p, now) + Inserted([], p.created, db.nextId, p.sourceFetchedAt.value, now)
    ensures forall l | l in Inserted([], p.created, db.nextId, p.sourceFetchedAt.value, now) ::
              exists s | s in p.created :: l.code == s.code && l.kind == s.kind && l.source == s.source && l.sourceFetchedAt == p.sourceFetchedAt.value
  {
    var more := Inserted([], p.created, db.nextId, p.sourceFetchedAt.value, now);
    forall l | l in more
      ensures exists s | s in p.created :: l.code == s.code && l.kind == s.kind && l.source == s.source && l.sourceFetchedAt == p.sourceFetchedAt.value
    {
      var i :| 0 <= i < |more| && more[i] == l;
      assert p.created[i] in p.created;
    }
  }

  lemma SameMissing(r: Request, db: Db, p: Plan, now: int, mappings: seq<MappingView>)
    requires WellFormed(db) && FromSnapshot(r) && p.sourceFetchedAt.Some?
    requires p.updated == UpdatedOf(r.seeds, db.locations, r) && p.created == CreatedOf(r.seeds, db.locations, r.kind)
    ensures MissingOf(Written(db, p, now).locations, r, mappings) == MissingOf(db.locations, r, mappings)
  {
    var more := Inserted([], p.created, db.nextId, p.sourceFetchedAt.value, now);
    SplitWritten(db, p, now);
    forall l | l in more ensures l.code in SeedCodes(r.seeds) {
      CreatedFacts(r.seeds, db.locations, r.kind);
    }
    forall l | l in db.locations && IsMissing(l, r) ensures UpdateById(p.updated, l.id).None? {
      MissingIsNotUpdated(r, db.locations, db.nextId, l);
    }
    MissingStays(db.locations, r, mappings, p, now);
    NewRowsAreNotMissing(RewriteAll(db.locations, p.updated, p, now), more, r, mappings);
  }

  // ------------------------------------------------------------- no new reason to refuse

  lemma StateFree(rows: seq<Location>, r: Request)
    ensures var code := OriginCode(r.target);
            StateBlocks(rows, r) == [] <==>
              && !(r.source == SANDBOX && HoldsProduction(rows, r.kind))
              && !HoldsNewer(rows, r)
              && !(r.source == PRODUCTION && !Given(code))
              && !(Given(code) && r.kind == ORIGIN && code.value !in SeedCodes(r.seeds))
              && !(Given(code) && r.kind == DESTINATION && r.source == PRODUCTION && !OriginIsActive(rows, r.kind, code.value))
  {
  }

  lemma {:induction false} SameOrigin(rows: seq<Location>, p: Plan, now: int, more: seq<Location>, code: string)
    requires p.sourceFetchedAt.Some? && forall l | l in more :: l.kind == p.kind
    ensures ProtectedByCode(RewriteAll(rows, p.updated, p, now) + more, p.kind, code) == ProtectedByCode(rows, p.kind, code)
    decreases |rows| + |more|
  {
    var all := RewriteAll(rows, p.updated, p, now) + more;
    if rows != [] {
      assert all[1..] == RewriteAll(rows[1..], p.updated, p, now) + more;
      SameOrigin(rows[1..], p, now, more, code);
    } else if more != [] {
      assert all[0] == more[0] && all[1..] == RewriteAll([], p.updated, p, now) + more[1..];
      SameOrigin([], p, now, more[1..], code);
    }
  }

  /** A row that was not as it is before the write carries the source and fetch time of the plan. */
  lemma {:induction false} WrittenProvenance(r: Request, db: Db, now: int, l: Location)
    requires WellFormed(db) && FromSnapshot(r) && r.sourceFetchedAt.Some?
    requires l in Written(db, PlanMaster(r, ReadMasterState(db)), now).locations
    ensures l in db.locations || (l.source == r.source && Some(l.sourceFetchedAt) == r.sourceFetchedAt)
  {
    var p := PlanMaster(r, ReadMasterState(db));
    SplitWritten(db, p, now);
    CreatedAreFree(r, db.locations);
    var rewritten := RewriteAll(db.locations, p.updated, p, now);
    if l in rewritten {
      var i :| 0 <= i < |rewritten| && rewritten[i] == l;
      var u := UpdateById(p.updated, db.locations[i].id);
      if u.Some? {
        UpdatedFacts(r.seeds, db.locations, r);
        assert IsUpdate(u.value, r.seeds, db.locations, r);
      }
    }
  }

  lemma {:induction false} StateStaysFree(r: Request, db: Db, now: int)
    requires WellFormed(db) && FromSnapshot(r) && r.sourceFetchedAt.Some? && StateBlocks(db.locations, r) == []
    ensures StateBlocks(Written(db, PlanMaster(r, ReadMasterState(db)), now).locations, r) == []
  {
    var p := PlanMaster(r, ReadMasterState(db));
    var all := Written(db, p, now).locations;
    StateFree(db.locations, r);
    StateFree(all, r);
    forall l | l in all { WrittenProvenance(r, db, now, l); }
    CreatedAreFree(r, db.locations);
    forall code { OriginStays(db, p, now, code); }
  }

  lemma {:induction false} OriginStays(db: Db, p: Plan, now: int, code: string)
    requires p.sourceFetchedAt.Some? && forall s | s in p.created :: s.kind == p.kind
    ensures ProtectedByCode(Written(db, p, now).locations, p.kind, code) == ProtectedByCode(db.locations, p.kind, code)
  {
    var more := Inserted([], p.created, db.nextId, p.sourceFetchedAt.value, now);
    SplitWritten(db, p, now);
    forall l | l in more ensures l.kind == p.kind {
      var i :| 0 <= i < |more| && more[i] == l;
      assert p.created[i] in p.created;
    }
    SameOrigin(db.locations, p, now, more, code);
  }

  /**
   * After a blocker-free plan is written, planning the same request again creates nothing, updates
   * nothing, finds every seed stored as it is, and has no blocker.
   */
  lemma ImportIsAFixpoint(r: Request, db: Db, now: int)
    requires WellFormed(db) && FromSnapshot(r) && PlanMaster(r, ReadMasterState(db)).blockers == []
    ensures r.sourceFetchedAt.Some? && WellFormed(Written(db, PlanMaster(r, ReadMasterState(db)), now))
    ensures var p := PlanMaster(r, ReadMasterState(db));
            var again := PlanMaster(r, ReadMasterState(Written(db, p, now)));
            again.created == [] && again.updated == [] && again.alike == |r.seeds| && again.blockers == []
  {
    var state := ReadMasterState(db);
    var p := PlanMaster(r, state);
    BlockerFree(r, state, p.updated, p.missing, |p.created| + |p.updated|, p.planSha256);
    BlockerFreeIsReviewed(r, state, p.updated, p.missing, |p.created| + |p.updated|, p.planSha256);
    assert Writable(p, db.nextId) && KeysAreFree(db.locations, p.created) by {
      PlanApplies(r, db);
    }
    WrittenIsWellFormed(db, p, now);
    var after := ReadMasterState(Written(db, p, now));
    forall s | s in r.seeds { EverySeedIsStored(r, db, now, s); }
    SameMissing(r, db, p, now, state.mappings);
    StateStaysFree(r, db, now);
    forall hash { NoBlockers(r, after, p.missing, hash); }
    NothingLeft(r, after, p.missing);
  }

  lemma NoBlockers(r: Request, after: MasterState, missing: seq<Missing>, hash: PlanIdentity)
    requires AckBlocks(ScanAcks(after.mappings, r, missing)) == []
    requires SnapshotBlocks(r) == [] && ProvenanceBlocks(r) == [] && StateBlocks(after.existing, r) == []
    ensures Blockers(r, after, [], missing, 0, hash) == []
  {
    BlockerFree(r, after, [], missing, 0, hash);
  }

  lemma NothingLeft(r: Request, after: MasterState, missing: seq<Missing>)
    requires forall s | s in r.seeds :: SeedIsStored(r, after.existing, s)
    requires missing == MissingOf(after.existing, r, after.mappings)
    requires forall hash :: Blockers(r, after, [], missing, 0, hash) == []
    ensures var again := PlanMaster(r, after);
            again.created == [] && again.updated == [] && again.alike == |r.seeds| && again.blockers == []
  {
    NothingToChange(r.seeds, after.existing, r);
    var again := PlanMaster(r, after);
    assert again.blockers == Blockers(r, after, [], missing, 0, again.planSha256);
  }
}
