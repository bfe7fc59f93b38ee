/** The check made before an import commits, in both directions. */
module MasterVerify {
  // The check made before an import commits, in both directions: what the writer produces passes it,
  // and what passes it has lost, moved or touched nothing the plan does not name.

  import opened Wrappers
  import opened JneMaster
  import opened JneDatabase
  import opened MasterPlan
  import opened MasterPlanFacts
  import opened MasterImport

  // ------------------------------------------------------------- the check

  predicate SeedIsWritten(p: Plan, rows: seq<Location>, s: Seed) {
    var row := Existing(rows, p.kind, s.code);
    && row.Some?
    && row.value.rawName == s.rawName
    && row.value.source == p.source
    && row.value.isActive
    && p.sourceFetchedAt == Some(row.value.sourceFetchedAt)
  }

  function LocationIds(rows: seq<Location>): set<nat> {
    set l | l in rows :: l.id
  }

  /** The rows of the imported kind that the plan leaves alone. */
  function Untouched(rows: seq<Location>, p: Plan): seq<Location> {
    if rows == [] then []
    else
      var l := rows[|rows| - 1];
      Untouched(rows[..|rows| - 1], p) + if l.kind == p.kind && l.id !in IdsOf(p.updated) then [l] else []
  }

  function WithIds(rows: seq<Location>, ids: set<nat>): seq<Location> {
    if rows == [] then []
    else WithIds(rows[..|rows| - 1], ids) + if rows[|rows| - 1].id in ids then [rows[|rows| - 1]] else []
  }

  predicate VerifyWritten(p: Plan, before: MasterState, after: MasterState) {
    && (forall s | s in p.created :: SeedIsWritten(p, after.existing, s))
    && (forall u | u in p.updated :: SeedIsWritten(p, after.existing, u.seed))
    && LocationIds(before.existing) <= LocationIds(after.existing)
    && |after.existing| == |before.existing| + |p.created|
    && LocationFingerprint(Untouched(before.existing, p)) ==
       LocationFingerprint(WithIds(after.existing, LocationIds(Untouched(before.existing, p))))
    && before.mappings == after.mappings
    && LocationFingerprint(Protected(after.existing, p.kind)) == p.protectedFingerprint
  }

  // ------------------------------------------------------------- a plan fits the state it was made from

  /** The request is what a loaded snapshot gives: clean seeds of its kind and source. */
  ghost predicate FromSnapshot(r: Request) {
    CleanSeeds(r.seeds, r.kind, r.source)
  }

  lemma {:induction false} UpdatesAreStored(r: Request, rows: seq<Location>, nextId: nat)
    requires FromSnapshot(r) && LocationKeys(rows, nextId)
    ensures DistinctIds(UpdatedOf(r.seeds, rows, r))
    ensures forall u | u in UpdatedOf(r.seeds, rows, r) ::
              u.id < nextId && Holds(rows, u.id, r.kind) && u.seed.kind == r.kind
  {
    UpdatedOnce(r.seeds, rows, r, nextId);
    UpdatedFacts(r.seeds, rows, r);
    forall u | u in UpdatedOf(r.seeds, rows, r)
      ensures u.id < nextId && Holds(rows, u.id, r.kind) && u.seed.kind == r.kind
    {
      assert IsUpdate(u, r.seeds, rows, r);
      var prev := Existing(rows, r.kind, u.seed.code).value;
      assert prev in rows && prev.id == u.id;
    }
  }

  lemma {:induction false} CreatedAreFree(r: Request, rows: seq<Location>)
    requires FromSnapshot(r)
    ensures KeysAreFree(rows, CreatedOf(r.seeds, rows, r.kind))
    ensures forall s | s in CreatedOf(r.seeds, rows, r.kind) :: s.kind == r.kind && s.source == r.source && s.isActive
  {
    CreatedFacts(r.seeds, rows, r.kind);
    CreatedOnce(r.seeds, rows, r.kind);
  }

  /** No statement of a plan can fail on the state the plan was made from. */
  lemma {:induction false} PlanApplies(r: Request, db: Db)
    requires WellFormed(db) && FromSnapshot(r) && r.sourceFetchedAt.Some?
    ensures var p := PlanMaster(r, ReadMasterState(db));
            Writable(p, db.nextId) && Applies(db.locations, p)
  {
    UpdatesAreStored(r, db.locations, db.nextId);
    CreatedAreFree(r, db.locations);
  }

  // ------------------------------------------------------------- keys and mappings survive

  lemma {:induction false} WrittenRow(db: Db, p: Plan, now: int, i: nat)
    requires p.sourceFetchedAt.Some? && i < |db.locations|
    ensures Written(db, p, now).locations[i] == Rewrite(db.locations[i], p.updated, p, now)
  {
  }

  lemma {:induction false} WrittenKeys(db: Db, p: Plan, now: int)
    requires WellFormed(db) && Writable(p, db.nextId) && KeysAreFree(db.locations, p.created)
    ensures LocationKeys(Written(db, p, now).locations, Written(db, p, now).nextId)
  {
    var rows, all := db.locations, Written(db, p, now).locations;
    forall i | 0 <= i < |all|
      ensures all[i].id == (if i < |rows| then rows[i].id else db.nextId + (i - |rows|))
      ensures all[i].code == (if i < |rows| then rows[i].code else p.created[i - |rows|].code)
      ensures all[i].kind == (if i < |rows| then rows[i].kind else p.created[i - |rows|].kind)
    {
    }
    forall i, j | 0 <= i < j < |all|
      ensures all[i].code != all[j].code || all[i].kind != all[j].kind
    {
      if i < |rows| <= j {
        assert rows[i] in rows && p.created[j - |rows|] in p.created;
      }
    }
  }

  lemma {:induction false} StillFound(db: Db, p: Plan, now: int, id: nat)
    requires WellFormed(db) && Writable(p, db.nextId) && KeysAreFree(db.locations, p.created)
    requires LocationById(db.locations, id).Some?
    ensures LocationById(Written(db, p, now).locations, id) ==
            Some(Rewrite(LocationById(db.locations, id).value, p.updated, p, now))
  {
    WrittenKeys(db, p, now);
    var i :| 0 <= i < |db.locations| && db.locations[i] == LocationById(db.locations, id).value;
    FoundById(Written(db, p, now).locations, i);
  }

  /** Whatever is written, every mapping still refers to a row. */
  lemma {:induction false} WrittenKeepsReferences(db: Db, p: Plan, now: int)
    requires References(db) && p.sourceFetchedAt.Some?
    ensures References(Written(db, p, now))
  {
    var all := Written(db, p, now).locations;
    forall m | m in db.mappings ensures LocationById(all, m.locationId).Some? {
      var i :| 0 <= i < |db.locations| && db.locations[i] == LocationById(db.locations, m.locationId).value;
      assert all[i].id == m.locationId;
    }
  }

  /** A written database keeps every key and reference, and reads back the same mappings. */
  lemma {:induction false} WrittenIsWellFormed(db: Db, p: Plan, now: int)
    requires WellFormed(db) && Writable(p, db.nextId) && KeysAreFree(db.locations, p.created)
    ensures WellFormed(Written(db, p, now))
    ensures ReadMasterState(Written(db, p, now)).mappings == ReadMasterState(db).mappings
  {
    WrittenKeys(db, p, now);
    forall m | m in db.mappings
      ensures LocationById(Written(db, p, now).locations, m.locationId).Some? && View(Written(db, p, now), m) == View(db, m)
    {
      StillFound(db, p, now, m.locationId);
    }
  }

  // ------------------------------------------------------------- what is written passes the check

  lemma {:induction false} UntouchedStays(rows: seq<Location>, p: Plan, now: int)
    requires p.sourceFetchedAt.Some?
    ensures Untouched(RewriteAll(rows, p.updated, p, now), p) == Untouched(rows, p)
    ensures Protected(RewriteAll(rows, p.updated, p, now), p.kind) == Protected(rows, p.kind)
  {
    if rows != [] {
      var n := |rows| - 1;
      UntouchedStays(rows[..n], p, now);
      var all := RewriteAll(rows, p.updated, p, now);
      assert all[..n] == RewriteAll(rows[..n], p.updated, p, now);
      assert UpdateById(p.updated, rows[n].id).Some? <==> rows[n].id in IdsOf(p.updated);
    }
  }

  lemma {:induction false} UntouchedByIds(rows: seq<Location>, p: Plan, ids: set<nat>)
    requires forall l | l in rows :: l.id in ids <==> l.kind == p.kind && l.id !in IdsOf(p.updated)
    ensures WithIds(rows, ids) == Untouched(rows, p)
  {
    if rows != [] {
      var n := |rows| - 1;
      assert rows == rows[..n] + [rows[n]];
      UntouchedByIds(rows[..n], p, ids);
    }
  }

  lemma {:induction false} NewRowsAreOutside(rows: seq<Location>, more: seq<Location>, kind: Kind, ids: set<nat>)
    requires forall l | l in more :: l.kind == kind && l.id !in ids
    ensures Protected(rows + more, kind) == Protected(rows, kind)
    ensures WithIds(rows + more, ids) == WithIds(rows, ids)
  {
    if more == [] {
      assert rows + more == rows;
    } else {
      var n := |more| - 1;
      assert more == more[..n] + [more[n]];
      assert (rows + more)[..|rows + more| - 1] == rows + more[..n];
      NewRowsAreOutside(rows, more[..n], kind, ids);
    }
  }

  lemma {:induction false} UntouchedFacts(rows: seq<Location>, p: Plan)
    ensures forall l | l in Untouched(rows, p) :: l in rows && l.kind == p.kind && l.id !in IdsOf(p.updated)
    ensures forall l | l in rows && l.kind == p.kind && l.id !in IdsOf(p.updated) :: l in Untouched(rows, p)
  {
    if rows != [] {
      var n := |rows| - 1;
      assert rows == rows[..n] + [rows[n]];
      UntouchedFacts(rows[..n], p);
    }
  }

  lemma {:induction false} WithIdsFacts(rows: seq<Location>, ids: set<nat>)
    ensures forall l | l in WithIds(rows, ids) :: l in rows && l.id in ids
    ensures forall l | l in rows && l.id in ids :: l in WithIds(rows, ids)
  {
    if rows != [] {
      var n := |rows| - 1;
      assert rows == rows[..n] + [rows[n]];
      WithIdsFacts(rows[..n], ids);
    }
  }

  lemma {:induction false} ProtectedFacts(rows: seq<Location>, kind: Kind)
    ensures forall l | l in Protected(rows, kind) :: l in rows && l.kind != kind
    ensures forall l | l in rows && l.kind != kind :: l in Protected(rows, kind)
  {
    if rows != [] {
      var n := |rows| - 1;
      assert rows == rows[..n] + [rows[n]];
      ProtectedFacts(rows[..n], kind);
    }
  }

  lemma {:induction false} UntouchedIdsExactly(rows: seq<Location>, p: Plan, i: nat)
    requires DistinctRowIds(rows) && i < |rows|
    ensures rows[i].id in LocationIds(Untouched(rows, p)) <==> rows[i].kind == p.kind && rows[i].id !in IdsOf(p.updated)
  {
    UntouchedFacts(rows, p);
    if rows[i].id in LocationIds(Untouched(rows, p)) {
      var x :| x in Untouched(rows, p) && x.id == rows[i].id;
      var j :| 0 <= j < |rows| && rows[j] == x;
    }
  }

  lemma {:induction false} RewrittenUntouched(rows: seq<Location>, p: Plan, now: int)
    requires DistinctRowIds(rows) && p.sourceFetchedAt.Some?
    ensures WithIds(RewriteAll(rows, p.updated, p, now), LocationIds(Untouched(rows, p))) == Untouched(rows, p)
  {
    var rewritten, ids := RewriteAll(rows, p.updated, p, now), LocationIds(Untouched(rows, p));
    UntouchedStays(rows, p, now);
    forall l | l in rewritten ensures l.id in ids <==> l.kind == p.kind && l.id !in IdsOf(p.updated) {
      var i :| 0 <= i < |rewritten| && rewritten[i] == l;
      assert rows[i].id == l.id && rows[i].kind == l.kind;
      UntouchedIdsExactly(rows, p, i);
    }
    UntouchedByIds(rewritten, p, ids);
  }

  lemma {:induction false} NewRowsAreNew(p: Plan, nextId: nat, now: int, ids: set<nat>)
    requires p.sourceFetchedAt.Some? && (forall s | s in p.created :: s.kind == p.kind) && forall id | id in ids :: id < nextId
    ensures forall l | l in Inserted([], p.created, nextId, p.sourceFetchedAt.value, now) :: l.kind == p.kind && l.id !in ids
  {
    var more := Inserted([], p.created, nextId, p.sourceFetchedAt.value, now);
    forall l | l in more ensures l.kind == p.kind && l.id !in ids {
      var i :| 0 <= i < |more| && more[i] == l;
      assert p.created[i] in p.created;
    }
  }

  /** Neither the untouched rows of the kind nor the protected ones differ after the write. */
  lemma {:induction false} FingerprintsHold(db: Db, p: Plan, now: int)
    requires LocationKeys(db.locations, db.nextId) && p.sourceFetchedAt.Some?
    requires forall s | s in p.created :: s.kind == p.kind
    ensures var rows, all := db.locations, Written(db, p, now).locations;
            && Untouched(rows, p) == WithIds(all, LocationIds(Untouched(rows, p)))
            && Protected(all, p.kind) == Protected(rows, p.kind)
  {
    var rows := db.locations;
    var rewritten := RewriteAll(rows, p.updated, p, now);
    var ids := LocationIds(Untouched(rows, p));
    var more := Inserted([], p.created, db.nextId, p.sourceFetchedAt.value, now);
    assert Written(db, p, now).locations == rewritten + more;
    UntouchedStays(rows, p, now);
    RewrittenUntouched(rows, p, now);
    UntouchedFacts(rows, p);
    NewRowsAreNew(p, db.nextId, now, ids);
    NewRowsAreOutside(rewritten, more, p.kind, ids);
  }

  lemma {:induction false} InsertedIsWritten(db: Db, p: Plan, now: int, i: nat)
    requires p.sourceFetchedAt.Some? && i < |p.created|
    requires LocationKeys(Written(db, p, now).locations, db.nextId + |p.created|)
    requires p.created[i].kind == p.kind && p.created[i].source == p.source && p.created[i].isActive
    ensures SeedIsWritten(p, Written(db, p, now).locations, p.created[i])
  {
    var all := Written(db, p, now).locations;
    assert all[|db.locations| + i] == NewRow(p.created[i], db.nextId + i, p.sourceFetchedAt.value, now);
    RowIsWritten(p, all, p.created[i], |db.locations| + i, db.nextId + |p.created|);
  }

  lemma {:induction false} CreatedIsWritten(r: Request, db: Db, now: int, s: Seed)
    requires WellFormed(db) && FromSnapshot(r) && r.sourceFetchedAt.Some?
    requires s in PlanMaster(r, ReadMasterState(db)).created
    ensures var p := PlanMaster(r, ReadMasterState(db)); SeedIsWritten(p, Written(db, p, now).locations, s)
  {
    var p := PlanMaster(r, ReadMasterState(db));
    assert Writable(p, db.nextId) && KeysAreFree(db.locations, p.created) by {
      PlanApplies(r, db);
    }
    WrittenKeys(db, p, now);
    var i :| 0 <= i < |p.created| && p.created[i] == s;
    assert s.kind == p.kind && s.source == p.source && s.isActive by {
      CreatedAreFree(r, db.locations);
    }
    InsertedIsWritten(db, p, now, i);
  }

  /** The stored row that an update is for. */
  lemma {:induction false} UpdatedRow(r: Request, rows: seq<Location>, u: Update) returns (i: nat)
    requires u in UpdatedOf(r.seeds, rows, r)
    ensures i < |rows| && u == UpdateOf(rows[i], u.seed, r) && u.seed in r.seeds
    ensures rows[i].kind == r.kind && rows[i].code == u.seed.code && u.id == rows[i].id
  {
    UpdatedFacts(r.seeds, rows, r);
    assert IsUpdate(u, r.seeds, rows, r);
    var prev := Existing(rows, r.kind, u.seed.code).value;
    i :| 0 <= i < |rows| && rows[i] == prev;
  }

  lemma {:induction false} UpdateIsWritten(r: Request, db: Db, now: int, u: Update)
    requires WellFormed(db) && FromSnapshot(r) && r.sourceFetchedAt.Some?
    requires u in PlanMaster(r, ReadMasterState(db)).updated
    ensures var p := PlanMaster(r, ReadMasterState(db)); SeedIsWritten(p, Written(db, p, now).locations, u.seed)
  {
    var p := PlanMaster(r, ReadMasterState(db));
    assert Writable(p, db.nextId) && KeysAreFree(db.locations, p.created) by {
      PlanApplies(r, db);
    }
    WrittenKeys(db, p, now);
    var i := UpdatedRow(r, db.locations, u);
    FoundUpdate(p.updated, u);
    WrittenRow(db, p, now, i);
    ChangedKeepsName(db.locations[i], u.seed, r);
    RowIsWritten(p, Written(db, p, now).locations, u.seed, i, db.nextId + |p.created|);
  }

  lemma {:induction false} FoundUpdate(us: seq<Update>, u: Update)
    requires DistinctIds(us) && u in us
    ensures UpdateById(us, u.id) == Some(u)
  {
    OnlyOneById(us, u, UpdateById(us, u.id).value);
  }

  /** An update that is no rename leaves the name that its seed has. */
  lemma {:induction false} ChangedKeepsName(prev: Location, seed: Seed, r: Request)
    ensures !ChangesOf(prev, seed, r.source, r.sourceFetchedAt).rawName ==> prev.rawName == seed.rawName
  {
  }

  lemma {:induction false} RowIsWritten(p: Plan, rows: seq<Location>, s: Seed, i: nat, nextId: nat)
    requires i < |rows| && LocationKeys(rows, nextId)
    requires rows[i].kind == p.kind && rows[i].code == s.code && rows[i].rawName == s.rawName
    requires rows[i].source == p.source && rows[i].isActive && p.sourceFetchedAt == Some(rows[i].sourceFetchedAt)
    ensures SeedIsWritten(p, rows, s)
  {
    ExistingIsTheRow(rows, i);
  }

  /** What the chunked writer leaves passes the check made before the commit. */
  lemma {:induction false} WrittenIsVerified(r: Request, db: Db, now: int)
    requires WellFormed(db) && FromSnapshot(r) && r.sourceFetchedAt.Some?
    ensures var p := PlanMaster(r, ReadMasterState(db));
            && Writable(p, db.nextId) && WellFormed(Written(db, p, now))
            && VerifyWritten(p, ReadMasterState(db), ReadMasterState(Written(db, p, now)))
  {
    var p := PlanMaster(r, ReadMasterState(db));
    PlanApplies(r, db);
    WrittenIsWellFormed(db, p, now);
    CreatedAreOfKind(r, db);
    forall s | s in p.created { CreatedIsWritten(r, db, now, s); }
    forall u | u in p.updated { UpdateIsWritten(r, db, now, u); }
    WrittenPasses(db, p, now);
  }

  lemma {:induction false} CreatedAreOfKind(r: Request, db: Db)
    requires WellFormed(db) && FromSnapshot(r)
    ensures var p := PlanMaster(r, ReadMasterState(db));
            && p.protectedFingerprint == LocationFingerprint(Protected(db.locations, p.kind))
            && forall s | s in p.created :: s.kind == p.kind
  {
    CreatedAreFree(r, db.locations);
  }

  /** The other conditions of the check, for any plan whose seeds have been written. */
  lemma {:induction false} WrittenPasses(db: Db, p: Plan, now: int)
    requires WellFormed(db) && Writable(p, db.nextId) && WellFormed(Written(db, p, now))
    requires ReadMasterState(Written(db, p, now)).mappings == ReadMasterState(db).mappings
    requires p.protectedFingerprint == LocationFingerprint(Protected(db.locations, p.kind))
    requires forall s | s in p.created :: s.kind == p.kind && SeedIsWritten(p, Written(db, p, now).locations, s)
    requires forall u | u in p.updated :: SeedIsWritten(p, Written(db, p, now).locations, u.seed)
    ensures VerifyWritten(p, ReadMasterState(db), ReadMasterState(Written(db, p, now)))
  {
    FingerprintsHold(db, p, now);
    IdsAreKept(db, p, now);
  }

  lemma {:induction false} IdsAreKept(db: Db, p: Plan, now: int)
    requires p.sourceFetchedAt.Some?
    ensures LocationIds(db.locations) <= LocationIds(Written(db, p, now).locations)
    ensures |Written(db, p, now).locations| == |db.locations| + |p.created|
  {
    var all := Written(db, p, now).locations;
    forall id | id in LocationIds(db.locations) ensures id in LocationIds(all) {
      var i :| 0 <= i < |db.locations| && db.locations[i].id == id;
      assert all[i] in all && all[i].id == id;
    }
  }

  // ------------------------------------------------------------- what passes the check is sound

  lemma {:induction false} IdCount(rows: seq<Location>)
    requires DistinctRowIds(rows)
    ensures |LocationIds(rows)| == |rows|
  {
    if rows != [] {
      var n := |rows| - 1;
      IdCount(rows[..n]);
      assert rows == rows[..n] + [rows[n]];
      assert LocationIds(rows) == LocationIds(rows[..n]) + {rows[n].id};
      forall l | l in rows[..n] ensures l.id != rows[n].id {
        var i :| 0 <= i < n && rows[i] == l;
      }
    }
  }

  lemma {:induction false} SameRows(a: seq<Location>, b: seq<Location>)
    requires multiset(a) == multiset(b)
    ensures forall l :: l in a <==> l in b
  {
    forall l ensures l in a <==> l in b {
      assert l in a <==> l in multiset(a);
      assert l in b <==> l in multiset(b);
    }
  }

  /**
   * Any later state the check accepts, however it came about: every id is kept, exactly the created
   * rows are new, each planned row is as its seed says, and the rows outside the plan, the whole
   * protected kind and every mapping are identical.
   */
  lemma {:induction false} AcceptedStateKeepsEverything(p: Plan, before: MasterState, after: MasterState)
    requires VerifyWritten(p, before, after)
    requires p.protectedFingerprint == LocationFingerprint(Protected(before.existing, p.kind))
    requires DistinctRowIds(before.existing) && DistinctRowIds(after.existing)
    ensures LocationIds(before.existing) <= LocationIds(after.existing)
    ensures |LocationIds(after.existing) - LocationIds(before.existing)| == |p.created|
    ensures forall l | l in before.existing && (l.kind != p.kind || l.id !in IdsOf(p.updated)) :: l in after.existing
    ensures forall l | l in after.existing && l.kind != p.kind :: l in before.existing
    ensures after.mappings == before.mappings
    ensures forall s | s in p.created :: SeedIsWritten(p, after.existing, s)
    ensures forall u | u in p.updated :: SeedIsWritten(p, after.existing, u.seed)
  {
    IdCount(before.existing);
    IdCount(after.existing);
    ProtectedFacts(before.existing, p.kind);
    ProtectedFacts(after.existing, p.kind);
    SameRows(Protected(before.existing, p.kind), Protected(after.existing, p.kind));
    var ids := LocationIds(Untouched(before.existing, p));
    UntouchedFacts(before.existing, p);
    WithIdsFacts(after.existing, ids);
    SameRows(Untouched(before.existing, p), WithIds(after.existing, ids));
  }
}
