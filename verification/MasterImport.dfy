/**
 * Applying a plan to the stored master. The writer works in three passes: created seeds are inserted in chunks, renamed rows
 * are rewritten one by one, and the other updated rows are relabelled in chunks. Each pass counts what it has touched, and
 * a short count means that nothing may be kept. The specification is one rewriting of the rows followed by the new ones.
 */
module MasterImport {
  import opened Wrappers
  import opened JneMaster
  import opened JneDatabase
  import opened MasterPlan
  import opened MasterPlanFacts

  /** Rows per statement; every chunk runs inside the one transaction. */
  const WRITE_CHUNK := 500

  // ------------------------------------------------------------- what each statement does to a row

  function NewRow(seed: Seed, id: nat, fetchedAt: int, now: int): Location {
    Location(id, seed.code, seed.kind, seed.source, seed.rawName, seed.isActive, fetchedAt, seed.derived, now, now)
  }

  function Renamed(l: Location, seed: Seed, fetchedAt: int, now: int): Location {
    l.(rawName := seed.rawName, derived := seed.derived, source := seed.source, sourceFetchedAt := fetchedAt,
       isActive := seed.isActive, updatedAt := now)
  }

  function Relabelled(l: Location, source: Source, fetchedAt: int, now: int): Location {
    l.(source := source, sourceFetchedAt := fetchedAt, isActive := true, updatedAt := now)
  }

  function Inserted(rows: seq<Location>, seeds: seq<Seed>, nextId: nat, fetchedAt: int, now: int): (r: seq<Location>)
    ensures |r| == |rows| + |seeds|
  {
    rows + seq(|seeds|, i requires 0 <= i < |seeds| => NewRow(seeds[i], nextId + i, fetchedAt, now))
  }

  function UpdateById(updated: seq<Update>, id: nat): (u: Option<Update>)
    ensures u.Some? ==> u.value in updated && u.value.id == id
    ensures u.None? ==> forall x | x in updated :: x.id != id
  {
    if updated == [] then None
    else if updated[|updated| - 1].id == id then Some(updated[|updated| - 1])
    else UpdateById(updated[..|updated| - 1], id)
  }

  /** What the updates of a plan make of one stored row: nothing, when it is not theirs or of the other kind. */
  function Rewrite(l: Location, updated: seq<Update>, p: Plan, now: int): Location
    requires p.sourceFetchedAt.Some?
  {
    match UpdateById(updated, l.id)
    case None => l
    case Some(u) =>
      if l.kind != p.kind then l
      else if u.changes.rawName then Renamed(l, u.seed, p.sourceFetchedAt.value, now)
      else Relabelled(l, p.source, p.sourceFetchedAt.value, now)
  }

  function RewriteAll(rows: seq<Location>, updated: seq<Update>, p: Plan, now: int): (r: seq<Location>)
    requires p.sourceFetchedAt.Some?
    ensures |r| == |rows|
  {
    seq(|rows|, i requires 0 <= i < |rows| => Rewrite(rows[i], updated, p, now))
  }

  /** The database a plan describes: every update applied to its row, every created seed added. */
  function Written(db: Db, p: Plan, now: int): Db
    requires p.sourceFetchedAt.Some?
  {
    db.(locations := Inserted(RewriteAll(db.locations, p.updated, p, now), p.created, db.nextId, p.sourceFetchedAt.value, now),
        nextId := db.nextId + |p.created|)
  }

  // ------------------------------------------------------------- the store

  /** The unique key (code, kind) admits all of `seeds` beside `rows`. */
  predicate KeysAreFree(rows: seq<Location>, seeds: seq<Seed>) {
    && (forall s, l | s in seeds && l in rows :: l.code != s.code || l.kind != s.kind)
    && (forall i, j | 0 <= i < j < |seeds| :: seeds[i].code != seeds[j].code || seeds[i].kind != seeds[j].kind)
  }

  function CountMatching(rows: seq<Location>, ids: set<nat>, kind: Kind): nat {
    if rows == [] then 0
    else
      var l := rows[|rows| - 1];
      CountMatching(rows[..|rows| - 1], ids, kind) + if l.id in ids && l.kind == kind then 1 else 0
  }

  class MasterStore {
    var db: Db

    constructor (db: Db)
      ensures this.db == db
    {
      this.db := db;
    }

    /** All rows or, when one breaks the unique key, an error. */
    method CreateMany(seeds: seq<Seed>, fetchedAt: int, now: int) returns (count: Option<nat>)
      modifies this
      ensures count.Some? <==> KeysAreFree(old(db.locations), seeds)
      ensures count.Some? ==>
                && count.value == |seeds|
                && db == old(db).(locations := Inserted(old(db.locations), seeds, old(db.nextId), fetchedAt, now),
                                  nextId := old(db.nextId) + |seeds|)
      ensures count.None? ==> db == old(db)
    {
      if !KeysAreFree(db.locations, seeds) {
        return None;
      }
      db := db.(locations := Inserted(db.locations, seeds, db.nextId, fetchedAt, now), nextId := db.nextId + |seeds|);
      count := Some(|seeds|);
    }

    /** The one row of the kind with this id takes the seed's name and provenance; no such row is an error. */
    method Rename(id: nat, kind: Kind, seed: Seed, fetchedAt: int, now: int) returns (found: bool)
      modifies this
      ensures found <==> exists l | l in old(db.locations) :: l.id == id && l.kind == kind
      ensures db == old(db).(locations := RenameRows(old(db.locations), id, kind, seed, fetchedAt, now))
    {
      found := exists l | l in db.locations :: l.id == id && l.kind == kind;
      db := db.(locations := RenameRows(db.locations, id, kind, seed, fetchedAt, now));
    }

    /** Every row of the kind whose id is listed takes the provenance and becomes active. */
    method RelabelMany(ids: set<nat>, kind: Kind, source: Source, fetchedAt: int, now: int) returns (count: nat)
      modifies this
      ensures count == CountMatching(old(db.locations), ids, kind)
      ensures db == old(db).(locations := RelabelRows(old(db.locations), ids, kind, source, fetchedAt, now))
    {
      count := CountMatching(db.locations, ids, kind);
      db := db.(locations := RelabelRows(db.locations, ids, kind, source, fetchedAt, now));
    }
  }

  function RenameRows(rows: seq<Location>, id: nat, kind: Kind, seed: Seed, fetchedAt: int, now: int): seq<Location> {
    seq(|rows|, i requires 0 <= i < |rows| =>
      if rows[i].id == id && rows[i].kind == kind then Renamed(rows[i], seed, fetchedAt, now) else rows[i])
  }

  function RelabelRows(rows: seq<Location>, ids: set<nat>, kind: Kind, source: Source, fetchedAt: int,
                       now: int): seq<Location> {
    seq(|rows|, i requires 0 <= i < |rows| =>
      if rows[i].id in ids && rows[i].kind == kind then Relabelled(rows[i], source, fetchedAt, now) else rows[i])
  }

  // ------------------------------------------------------------- writing a plan, chunk by chunk

  function Renames(updated: seq<Update>): (r: seq<Update>)
    ensures forall u :: u in r <==> u in updated && u.changes.rawName
  {
    if updated == [] then []
    else Renames(updated[..|updated| - 1]) + if updated[|updated| - 1].changes.rawName then [updated[|updated| - 1]] else []
  }

  function Others(updated: seq<Update>): (r: seq<Update>)
    ensures forall u :: u in r <==> u in updated && !u.changes.rawName
  {
    if updated == [] then []
    else Others(updated[..|updated| - 1]) + if updated[|updated| - 1].changes.rawName then [] else [updated[|updated| - 1]]
  }

  function IdsOf(updated: seq<Update>): set<nat> {
    set u | u in updated :: u.id
  }

  /** What every plan has when it is written: updates of distinct rows that were there before. */
  ghost predicate Writable(p: Plan, nextId: nat) {
    && p.sourceFetchedAt.Some?
    && DistinctIds(p.updated)
    && (forall u | u in p.updated :: u.id < nextId)
  }

  lemma {:induction false} LastIsDistinct(updated: seq<Update>)
    requires DistinctIds(updated) && updated != []
    ensures DistinctIds(updated[..|updated| - 1])
    ensures forall u | u in updated[..|updated| - 1] :: u.id != updated[|updated| - 1].id
  {
    var n := |updated| - 1;
    forall u | u in updated[..n] ensures u.id != updated[n].id {
      var i :| 0 <= i < n && updated[i] == u;
    }
  }

  lemma {:induction false} OneMoreIsDistinct(us: seq<Update>, u: Update)
    requires DistinctIds(us) && forall x | x in us :: x.id != u.id
    ensures DistinctIds(us + [u])
  {
    forall i, j | 0 <= i < j < |us + [u]| ensures (us + [u])[i].id != (us + [u])[j].id {
      assert us[i] in us;
    }
  }

  lemma {:induction false} RenamesAreDistinct(updated: seq<Update>)
    requires DistinctIds(updated)
    ensures DistinctIds(Renames(updated))
  {
    if updated != [] {
      var n := |updated| - 1;
      LastIsDistinct(updated);
      RenamesAreDistinct(updated[..n]);
      OneMoreIsDistinct(Renames(updated[..n]), updated[n]);
    }
  }

  lemma {:induction false} OthersAreDistinct(updated: seq<Update>)
    requires DistinctIds(updated)
    ensures DistinctIds(Others(updated))
  {
    if updated != [] {
      var n := |updated| - 1;
      LastIsDistinct(updated);
      OthersAreDistinct(updated[..n]);
      OneMoreIsDistinct(Others(updated[..n]), updated[n]);
    }
  }

  predicate SeedsAreOfKind(p: Plan) {
    (forall s | s in p.created :: s.kind == p.kind) && (forall u | u in p.updated :: u.seed.kind == p.kind)
  }

  /** Row `id` of the kind is stored. */
  predicate Holds(rows: seq<Location>, id: nat, kind: Kind) {
    exists l | l in rows :: l.id == id && l.kind == kind
  }

  ghost predicate DistinctRowIds(rows: seq<Location>) {
    forall i, j | 0 <= i < j < |rows| :: rows[i].id != rows[j].id
  }

  /** Every row the plan updates is stored under its kind. */
  ghost predicate AllHeld(rows: seq<Location>, p: Plan) {
    forall u | u in p.updated :: Holds(rows, u.id, p.kind)
  }

  /** Every statement of the plan finds what it expects. */
  ghost predicate Applies(rows: seq<Location>, p: Plan) {
    && SeedsAreOfKind(p)
    && KeysAreFree(rows, p.created)
    && DistinctRowIds(rows)
    && AllHeld(rows, p)
  }

  lemma {:induction false} InsertedAppend(rows: seq<Location>, a: seq<Seed>, b: seq<Seed>, nextId: nat, fetchedAt: int,
                                          now: int)
    ensures Inserted(Inserted(rows, a, nextId, fetchedAt, now), b, nextId + |a|, fetchedAt, now) ==
            Inserted(rows, a + b, nextId, fetchedAt, now)
  {
  }

  lemma {:induction false} ChunkIsFree(rows: seq<Location>, seeds: seq<Seed>, i: nat, hi: nat, nextId: nat,
                                       fetchedAt: int, now: int)
    requires i <= hi <= |seeds| && KeysAreFree(rows, seeds)
    ensures KeysAreFree(Inserted(rows, seeds[..i], nextId, fetchedAt, now), seeds[i..hi])
  {
    var before := Inserted(rows, seeds[..i], nextId, fetchedAt, now);
    forall s, l | s in seeds[i..hi] && l in before
      ensures l.code != s.code || l.kind != s.kind
    {
      var k :| i <= k < hi && seeds[k] == s;
      var j :| 0 <= j < |before| && before[j] == l;
      assert seeds[k] in seeds;
      if j < |rows| {
        assert rows[j] == l;
      } else {
        assert l.code == seeds[j - |rows|].code && l.kind == seeds[j - |rows|].kind;
      }
    }
  }

  /** Inserts the created seeds, at most WRITE_CHUNK to a statement. */
  method CreateChunks(store: MasterStore, p: Plan, fetchedAt: int, now: int) returns (ok: bool)
    modifies store
    ensures ok ==>
              store.db == old(store.db).(
                locations := Inserted(old(store.db.locations), p.created, old(store.db.nextId), fetchedAt, now),
                nextId := old(store.db.nextId) + |p.created|)
    ensures KeysAreFree(old(store.db.locations), p.created) ==> ok
  {
    var i := 0;
    while i < |p.created|
      invariant i <= |p.created|
      invariant store.db == old(store.db).(
                  locations := Inserted(old(store.db.locations), p.created[..i], old(store.db.nextId), fetchedAt, now),
                  nextId := old(store.db.nextId) + i)
    {
      var hi := if i + WRITE_CHUNK < |p.created| then i + WRITE_CHUNK else |p.created|;
      if KeysAreFree(old(store.db.locations), p.created) {
        ChunkIsFree(old(store.db.locations), p.created, i, hi, old(store.db.nextId), fetchedAt, now);
      }
      InsertedAppend(old(store.db.locations), p.created[..i], p.created[i..hi], old(store.db.nextId), fetchedAt, now);
      assert p.created[..i] + p.created[i..hi] == p.created[..hi];
      var count := store.CreateMany(p.created[i..hi], fetchedAt, now);
      if count.None? || count.value != hi - i {
        return false;
      }
      i := hi;
    }
    assert p.created[..i] == p.created;
    ok := true;
  }

  lemma {:induction false} RewriteKeeps(rows: seq<Location>, updated: seq<Update>, p: Plan, now: int)
    requires p.sourceFetchedAt.Some?
    ensures forall i | 0 <= i < |rows| ::
              var l := RewriteAll(rows, updated, p, now)[i];
              l.id == rows[i].id && l.kind == rows[i].kind && l.code == rows[i].code
    ensures forall id | Holds(rows, id, p.kind) :: Holds(RewriteAll(rows, updated, p, now), id, p.kind)
  {
    forall id | Holds(rows, id, p.kind) ensures Holds(RewriteAll(rows, updated, p, now), id, p.kind) {
      var i :| 0 <= i < |rows| && rows[i].id == id && rows[i].kind == p.kind;
      assert RewriteAll(rows, updated, p, now)[i] in RewriteAll(rows, updated, p, now);
    }
  }

  lemma {:induction false} RenameStep(rows: seq<Location>, us: seq<Update>, j: nat, p: Plan, now: int)
    requires p.sourceFetchedAt.Some? && j < |us| && DistinctIds(us) && us[j].changes.rawName
    ensures RenameRows(RewriteAll(rows, us[..j], p, now), us[j].id, p.kind, us[j].seed, p.sourceFetchedAt.value, now) ==
            RewriteAll(rows, us[..j + 1], p, now)
  {
    var before := RewriteAll(rows, us[..j], p, now);
    RewriteKeeps(rows, us[..j], p, now);
    assert us[..j + 1][..j] == us[..j];
    forall i | 0 <= i < |rows|
      ensures RenameRows(before, us[j].id, p.kind, us[j].seed, p.sourceFetchedAt.value, now)[i] == RewriteAll(rows, us[..j + 1], p, now)[i]
    {
      if rows[i].id == us[j].id {
        assert UpdateById(us[..j], us[j].id).None?;
      }
    }
  }

  /** Renames one row after the other. */
  method RenameEach(store: MasterStore, p: Plan, fetchedAt: int, now: int) returns (ok: bool)
    requires p.sourceFetchedAt == Some(fetchedAt) && DistinctIds(p.updated)
    modifies store
    ensures ok ==> store.db == old(store.db).(locations := RewriteAll(old(store.db.locations), Renames(p.updated), p, now))
    ensures AllHeld(old(store.db.locations), p) ==> ok
  {
    var renamed := Renames(p.updated);
    RenamesAreDistinct(p.updated);
    assert RewriteAll(store.db.locations, renamed[..0], p, now) == store.db.locations;
    for j := 0 to |renamed|
      invariant store.db == old(store.db).(locations := RewriteAll(old(store.db.locations), renamed[..j], p, now))
    {
      RewriteKeeps(old(store.db.locations), renamed[..j], p, now);
      assert renamed[j] in renamed;
      RenameStep(old(store.db.locations), renamed, j, p, now);
      var found := store.Rename(renamed[j].id, p.kind, renamed[j].seed, fetchedAt, now);
      if !found {
        assert !Holds(RewriteAll(old(store.db.locations), renamed[..j], p, now), renamed[j].id, p.kind);
        return false;
      }
    }
    assert renamed[..|renamed|] == renamed;
    ok := true;
  }

  lemma {:induction false} LookupInTail(us: seq<Update>, i: nat, hi: nat, id: nat)
    requires i <= hi <= |us| && DistinctIds(us)
    ensures id !in IdsOf(us[i..hi]) ==> UpdateById(us[..hi], id) == UpdateById(us[..i], id)
    ensures id in IdsOf(us[i..hi]) ==> UpdateById(us[..i], id).None? && UpdateById(us[..hi], id).Some?
    decreases hi
  {
    if id in IdsOf(us[i..hi]) {
      var k :| i <= k < hi && us[k].id == id;
      assert us[k] in us[..hi];
      assert UpdateById(us[..i], id).None?;
    } else if i < hi {
      assert us[..hi][..hi - 1] == us[..hi - 1];
      assert us[i..hi] == us[i..hi - 1] + [us[hi - 1]];
      assert us[hi - 1] in us[i..hi];
      LookupInTail(us, i, hi - 1, id);
    }
  }

  lemma {:induction false} RelabelStep(rows: seq<Location>, us: seq<Update>, i: nat, hi: nat, p: Plan, now: int)
    requires p.sourceFetchedAt.Some? && i <= hi <= |us| && DistinctIds(us) && forall u | u in us :: !u.changes.rawName
    ensures RelabelRows(RewriteAll(rows, us[..i], p, now), IdsOf(us[i..hi]), p.kind, p.source, p.sourceFetchedAt.value, now) ==
            RewriteAll(rows, us[..hi], p, now)
  {
    RewriteKeeps(rows, us[..i], p, now);
    var after := RelabelRows(RewriteAll(rows, us[..i], p, now), IdsOf(us[i..hi]), p.kind, p.source, p.sourceFetchedAt.value, now);
    forall j | 0 <= j < |rows| ensures after[j] == RewriteAll(rows, us[..hi], p, now)[j] {
      LookupInTail(us, i, hi, rows[j].id);
    }
  }

  lemma {:induction false} IdsCount(us: seq<Update>)
    requires DistinctIds(us)
    ensures |IdsOf(us)| == |us|
  {
    if us != [] {
      var n := |us| - 1;
      IdsCount(us[..n]);
      assert us == us[..n] + [us[n]];
      assert IdsOf(us) == IdsOf(us[..n]) + {us[n].id};
      forall u | u in us[..n] ensures u.id != us[n].id {
        var i :| 0 <= i < n && us[i] == u;
      }
    }
  }

  ghost function MatchedIds(rows: seq<Location>, ids: set<nat>, kind: Kind): set<nat> {
    set l | l in rows && l.id in ids && l.kind == kind :: l.id
  }

  lemma {:induction false} MatchedIdsSnoc(rows: seq<Location>, l: Location, ids: set<nat>, kind: Kind)
    ensures MatchedIds(rows + [l], ids, kind) ==
            MatchedIds(rows, ids, kind) + if l.id in ids && l.kind == kind then {l.id} else {}
  {
  }

  lemma {:induction false} CountIsMatched(rows: seq<Location>, ids: set<nat>, kind: Kind)
    requires DistinctRowIds(rows)
    ensures CountMatching(rows, ids, kind) == |MatchedIds(rows, ids, kind)|
  {
    if rows != [] {
      var n := |rows| - 1;
      CountIsMatched(rows[..n], ids, kind);
      assert rows == rows[..n] + [rows[n]];
      MatchedIdsSnoc(rows[..n], rows[n], ids, kind);
      assert rows[n].id !in MatchedIds(rows[..n], ids, kind);
    }
  }

  /** When every listed id is stored under the kind, the statement reports as many rows as ids. */
  lemma {:induction false} CountIsComplete(rows: seq<Location>, us: seq<Update>, kind: Kind)
    requires DistinctIds(us) && DistinctRowIds(rows)
    requires forall u | u in us :: Holds(rows, u.id, kind)
    ensures CountMatching(rows, IdsOf(us), kind) == |us|
  {
    CountIsMatched(rows, IdsOf(us), kind);
    IdsCount(us);
    assert MatchedIds(rows, IdsOf(us), kind) == IdsOf(us) by {
      forall id | id in IdsOf(us) ensures id in MatchedIds(rows, IdsOf(us), kind) {
        var u :| u in us && u.id == id;
        assert Holds(rows, u.id, kind);
      }
    }
  }

  /** Relabels the rows whose name stays, at most WRITE_CHUNK to a statement. */
  method RelabelChunks(store: MasterStore, p: Plan, fetchedAt: int, now: int) returns (ok: bool)
    requires p.sourceFetchedAt == Some(fetchedAt) && DistinctIds(p.updated)
    modifies store
    ensures ok ==> store.db == old(store.db).(locations := RewriteAll(old(store.db.locations), Others(p.updated), p, now))
    ensures DistinctRowIds(old(store.db.locations)) && AllHeld(old(store.db.locations), p) ==> ok
  {
    ghost var rows := store.db.locations;
    var others := Others(p.updated);
    OthersAreDistinct(p.updated);
    assert RewriteAll(rows, others[..0], p, now) == rows;
    var i := 0;
    while i < |others|
      invariant i <= |others|
      invariant store.db == old(store.db).(locations := RewriteAll(rows, others[..i], p, now))
    {
      var hi := if i + WRITE_CHUNK < |others| then i + WRITE_CHUNK else |others|;
      var ids := IdsOf(others[i..hi]);
      RelabelStep(rows, others, i, hi, p, now);
      if DistinctRowIds(rows) && AllHeld(rows, p) {
        ChunkIsComplete(rows, others, i, hi, p, now);
      }
      var count := store.RelabelMany(ids, p.kind, p.source, fetchedAt, now);
      if count != hi - i {
        return false;
      }
      i := hi;
    }
    assert others[..i] == others;
    ok := true;
  }

  lemma {:induction false} ChunkIsComplete(rows: seq<Location>, us: seq<Update>, i: nat, hi: nat, p: Plan, now: int)
    requires p.sourceFetchedAt.Some? && i <= hi <= |us| && DistinctIds(us)
    requires DistinctRowIds(rows)
    requires forall u | u in us :: Holds(rows, u.id, p.kind)
    ensures CountMatching(RewriteAll(rows, us[..i], p, now), IdsOf(us[i..hi]), p.kind) == hi - i
  {
    RewriteKeeps(rows, us[..i], p, now);
    CountIsComplete(RewriteAll(rows, us[..i], p, now), us[i..hi], p.kind);
  }

  lemma {:induction false} TwoPassesAreOne(l: Location, p: Plan, now: int)
    requires p.sourceFetchedAt.Some? && DistinctIds(p.updated)
    ensures Rewrite(Rewrite(l, Renames(p.updated), p, now), Others(p.updated), p, now) == Rewrite(l, p.updated, p, now)
  {
    OneOfThePasses(p.updated, l.id);
  }

  /** An update is found in exactly the pass that is for it. */
  lemma {:induction false} OneOfThePasses(us: seq<Update>, id: nat)
    requires DistinctIds(us)
    ensures var u := UpdateById(us, id);
            && UpdateById(Renames(us), id) == (if u.Some? && u.value.changes.rawName then u else None)
            && UpdateById(Others(us), id) == (if u.Some? && !u.value.changes.rawName then u else None)
  {
    var ren, oth, u := UpdateById(Renames(us), id), UpdateById(Others(us), id), UpdateById(us, id);
    if u.Some? {
      if ren.Some? {
        OnlyOneById(us, ren.value, u.value);
      }
      if oth.Some? {
        OnlyOneById(us, oth.value, u.value);
      }
    }
  }

  lemma {:induction false} OnlyOneById(us: seq<Update>, a: Update, b: Update)
    requires DistinctIds(us) && a in us && b in us && a.id == b.id
    ensures a == b
  {
  }

  /** A row inserted by the plan is not one that it updates. */
  lemma {:induction false} NewRowIsNotUpdated(p: Plan, nextId: nat, l: Location, now: int)
    requires Writable(p, nextId) && l.id >= nextId
    ensures Rewrite(l, p.updated, p, now) == l
  {
    var u := UpdateById(p.updated, l.id);
    assert u.None?;
  }

  lemma {:induction false} RowInOrder(db: Db, p: Plan, now: int, i: nat)
    requires Writable(p, db.nextId) && i < |Written(db, p, now).locations|
    ensures Rewrite(Inserted(db.locations, p.created, db.nextId, p.sourceFetchedAt.value, now)[i], p.updated, p, now)
         == Written(db, p, now).locations[i]
  {
    if i >= |db.locations| {
      NewRowIsNotUpdated(p, db.nextId, Written(db, p, now).locations[i], now);
    }
  }

  /** Inserting first and rewriting in two passes is what the plan describes. */
  lemma {:induction false} WrittenInOrder(db: Db, p: Plan, now: int)
    requires Writable(p, db.nextId)
    ensures RewriteAll(RewriteAll(Inserted(db.locations, p.created, db.nextId, p.sourceFetchedAt.value, now), Renames(p.updated), p, now),
                       Others(p.updated), p, now) == Written(db, p, now).locations
  {
    var rows := Inserted(db.locations, p.created, db.nextId, p.sourceFetchedAt.value, now);
    var twice := RewriteAll(RewriteAll(rows, Renames(p.updated), p, now), Others(p.updated), p, now);
    forall i | 0 <= i < |rows|
      ensures twice[i] == Written(db, p, now).locations[i]
    {
      TwoPassesAreOne(rows[i], p, now);
      RowInOrder(db, p, now, i);
    }
  }

  lemma {:induction false} InsertedHolds(rows: seq<Location>, p: Plan, nextId: nat, fetchedAt: int, now: int)
    requires forall i | 0 <= i < |rows| :: rows[i].id < nextId
    requires DistinctRowIds(rows)
    ensures var all := Inserted(rows, p.created, nextId, fetchedAt, now);
            && DistinctRowIds(all)
            && (forall id | Holds(rows, id, p.kind) :: Holds(all, id, p.kind))
  {
  }

  /** Writes a plan in chunks: inserts, renames, then relabels. A short count means nothing may be kept. */
  method WritePlan(store: MasterStore, p: Plan, now: int) returns (ok: bool)
    requires Writable(p, store.db.nextId)
    modifies store
    ensures ok ==> store.db == Written(old(store.db), p, now)
    ensures Applies(old(store.db.locations), p) && (forall l | l in old(store.db.locations) :: l.id < old(store.db.nextId)) ==> ok
  {
    var fetchedAt := p.sourceFetchedAt.value;
    if !SeedsAreOfKind(p) {
      return false;
    }
    ghost var before := store.db;
    if (forall l | l in before.locations :: l.id < before.nextId) && Applies(before.locations, p) {
      InsertedHolds(before.locations, p, before.nextId, fetchedAt, now);
    }
    ok := CreateChunks(store, p, fetchedAt, now);
    if !ok {
      return;
    }
    ghost var created := store.db.locations;
    RewriteKeeps(created, Renames(p.updated), p, now);
    ok := RenameEach(store, p, fetchedAt, now);
    if !ok {
      return;
    }
    ok := RelabelChunks(store, p, fetchedAt, now);
    if ok {
      WrittenInOrder(before, p, now);
    }
  }
}
