/** What a resumed run needs of the plan's keys. */
module AcquisitionKeys {
  // What a resumed run needs of the plan's keys. The planner computes a unit's key from its search
  // term, so one term is one unit; but two terms can have one key, and then, for some server and some
  // crash, a term's rows are lost.

  import opened Wrappers
  import opened Json
  import opened Acquisition
  import opened AcquisitionPages
  import opened AcquisitionResume

  // ------------------------------------------------------------- two units under one key

  /**
   * A run that died between two units under one key is resumed by a run that makes no request; its
   * pool is the right one exactly when the second unit lists no id that the first does not.
   */
  lemma {:induction false} RepeatedKeyLosesRowsExactly(t: Transcript, server: Server, first: AcquisitionUnit,
                                                       second: AcquisitionUnit, o: RunOptions, c: Checkpoint, d: Disk)
    requires Identified(server) && 1 <= first.limit && first.key == second.key
    requires c.completedUnits == [first.key] && d.checkpoint == Some(CheckpointJson(c))
    requires HasArtifact(server, first, d.raw)
    ensures var r := Run(t, [first, second], o, d);
            && !r.stopped && r.requests == 0 && r.disks == []
            && (YieldsPool(r, d, ReferencePool(server, [first, second]))
                <==> Ids(server(second.searchTerm)) <= Ids(server(first.searchTerm)))
  {
    ResumedAfterFirst(t, first, second, o, c, d);
    PoolOfFirst(server, first, d.raw);
    PoolOfBoth(server, first, second);
  }

  lemma {:induction false} ResumedAfterFirst(t: Transcript, first: AcquisitionUnit, second: AcquisitionUnit,
                                             o: RunOptions, c: Checkpoint, d: Disk)
    requires first.key == second.key
    requires c.completedUnits == [first.key] && d.checkpoint == Some(CheckpointJson(c))
    ensures Run(t, [first, second], o, d) == Trace(false, c, 0, 2, [], [])
  {
    CheckpointRoundTrip(c);
    var done := KeySet(c.completedUnits);
    assert first.key in done;
    assert [first, second][1..] == [second] && [second][1..] == [];
    assert RunUnits(t, [second], o, done, c, d, 0) == After([], [], 1, RunUnits(t, [], o, done, c, d, 0));
  }

  lemma {:induction false} PoolOfFirst(server: Server, first: AcquisitionUnit, raw: map<string, Json>)
    requires Identified(server) && 1 <= first.limit && HasArtifact(server, first, raw)
    ensures Reconstruct(raw, [first.key]).Success?
    ensures Pool(Reconstruct(raw, [first.key]).value) == ToDestinations(Dedup(server(first.searchTerm), {}))
  {
    PoolOfNamed(server, [first], raw);
    assert Keys([first]) == [first.key];
    RowsOfOne(server, first);
  }

  lemma {:induction false} RowsOfOne(server: Server, u: AcquisitionUnit)
    requires Identified(server)
    ensures ServerRows(server, [u]) == server(u.searchTerm)
  {
    assert [u][..0] == [];
    assert [] + server(u.searchTerm) == server(u.searchTerm);
  }

  lemma {:induction false} PoolOfBoth(server: Server, first: AcquisitionUnit, second: AcquisitionUnit)
    requires Identified(server)
    ensures ReferencePool(server, [first, second]) == ToDestinations(Dedup(server(first.searchTerm), {}))
       <==> Ids(server(second.searchTerm)) <= Ids(server(first.searchTerm))
  {
    var a, b := server(first.searchTerm), server(second.searchTerm);
    var units := [first, second];
    assert units[..1] == [first];
    RowsOfOne(server, first);
    assert ServerRows(server, units) == a + b;
    DedupAppend(a, b, {});
    NothingKeptExactly(b, {} + Ids(a));
    var both, one := ReferencePool(server, units), ToDestinations(Dedup(a, {}));
    assert |both| == |Dedup(a, {})| + |Dedup(b, {} + Ids(a))|;
  }

  lemma {:induction false} NothingKeptExactly(rows: seq<Json>, seen: set<real>)
    requires AllHaveIds(rows)
    ensures Dedup(rows, seen) == [] <==> Ids(rows) <= seen
  {
    DedupIds(rows, seen);
    if Ids(rows) <= seen {
      NothingKept(rows, seen);
    } else {
      var id :| id in Ids(rows) && id !in seen;
      assert id in Ids(Dedup(rows, seen));
    }
  }

  // ------------------------------------------------------------- a server with one row

  const ROW := Obj(map[
    "id" := Num(1.0),
    "label" := Str("label"),
    "province_name" := Str("province"),
    "city_name" := Str("city"),
    "district_name" := Str("district"),
    "subdistrict_name" := Str("subdistrict"),
    "zip_code" := Null])

  /** The one row is listed under `term` and nowhere else. */
  ghost function OneRow(term: string): Server {
    t => if t == term then [ROW] else []
  }

  lemma {:induction false} RowIsARow()
    ensures IsRow(ROW) && RowId(ROW) == 1.0
  {
  }

  /** A transport that answers every request with the server's page. */
  ghost function Serving(server: Server): Transcript {
    (k: nat, r: Request) => Response(200, Obj(map[
      "meta" := Obj(map["code" := Num(200.0)]),
      "data" := Arr(if 1 <= r.limit then Slice(server(r.searchTerm), r.offset, r.limit) else [])]))
  }

  lemma {:induction false} ServingReads(term: string, k: nat, r: Request)
    ensures var p := ReadAnswer(Serving(OneRow(term))(k, r), r.limit);
            p.Page? && (1 <= r.limit ==> p.rows == Slice(OneRow(term)(r.searchTerm), r.offset, r.limit))
  {
    RowIsARow();
    var body := Serving(OneRow(term))(k, r).body;
    var data := if 1 <= r.limit then Slice(OneRow(term)(r.searchTerm), r.offset, r.limit) else [];
    assert Field(body, "meta") == Some(Obj(map["code" := Num(200.0)]));
    assert ListField(body, "data") == Some(data);
    assert NumberField(Field(body, "meta").value, "code") == Some(200.0);
  }

  lemma {:induction false} ServingIsHonest(term: string)
    ensures Identified(OneRow(term))
    ensures Honest(Serving(OneRow(term)), OneRow(term)) && Serves(Serving(OneRow(term)))
  {
    RowIsARow();
    forall k: nat, r: Request { ServingReads(term, k, r); }
  }

  const OPTIONS := RunOptions("run", 2, "now")

  lemma {:induction false} ServedUnit(term: string, u: AcquisitionUnit, k: nat)
    requires 1 <= u.limit
    ensures WalkUnit(Serving(OneRow(term)), u, OPTIONS.maxPages, k).Exhausted?
    ensures Identified(OneRow(term))
    ensures var w := WalkUnit(Serving(OneRow(term)), u, OPTIONS.maxPages, k);
            w.pages == Chunks(OneRow(term)(u.searchTerm), u.limit)
  {
    var t, server := Serving(OneRow(term)), OneRow(term);
    ServingIsHonest(term);
    var rows := server(u.searchTerm);
    assert Chunks(rows, u.limit)[..0] == [];
    assert PageCount(|rows|, u.limit) <= 2;
    ServedWalk(t, server, u, OPTIONS.maxPages, k, 0);
    HonestWalk(t, server, u, OPTIONS.maxPages, k, 0);
  }

  // ------------------------------------------------------------- storage without a row

  /** No artifact holds a row. */
  ghost predicate Barren(raw: map<string, Json>) {
    forall key | key in raw :: var a := ReadArtifact(key, raw[key]); a.Some? ==> a.value.rows == []
  }

  lemma {:induction false} BarrenOneMore(raw: map<string, Json>, u: AcquisitionUnit)
    requires Barren(raw) && 1 <= u.limit
    ensures PagesHaveIds(Chunks([], u.limit))
    ensures Barren(raw[u.key := ArtifactJson(u, Chunks([], u.limit), UnitRows(Chunks([], u.limit)))])
  {
    ChunksAreComplete([], u.limit);
    ArtifactRoundTrip(u, Chunks([], u.limit));
  }

  lemma {:induction false} BarrenUnits(raw: map<string, Json>, keys: seq<string>)
    requires Barren(raw) && Reconstruct(raw, keys).Success?
    ensures forall u | u in Reconstruct(raw, keys).value :: u.rows == []
  {
    if keys != [] {
      BarrenUnits(raw, keys[1..]);
    }
  }

  lemma {:induction false} NoRowsInOrder(acquired: seq<AcquiredUnit>)
    requires AllUnitsHaveIds(acquired) && forall u | u in acquired :: u.rows == []
    ensures UnitRowsInOrder(acquired) == []
  {
    if acquired != [] {
      NoRowsInOrder(acquired[..|acquired| - 1]);
    }
  }

  lemma {:induction false} BarrenPool(raw: map<string, Json>, keys: seq<string>)
    requires Barren(raw) && Reconstruct(raw, keys).Success?
    ensures Pool(Reconstruct(raw, keys).value) == []
  {
    BarrenUnits(raw, keys);
    NoRowsInOrder(Reconstruct(raw, keys).value);
  }

  /** A run that skips every unit listing the row completes, and leaves storage without it. */
  lemma {:induction false} BarrenRun(term: string, units: seq<AcquisitionUnit>, done: set<string>, c: Checkpoint,
                                     d: Disk, k: nat)
    requires forall u | u in units :: 1 <= u.limit && (u.key in done || u.searchTerm != term)
    requires Barren(d.raw)
    ensures var r := RunUnits(Serving(OneRow(term)), units, OPTIONS, done, c, d, k);
            !r.stopped && Barren(LastDisk(d, r.disks).raw)
    decreases |units|
  {
    if units != [] {
      var u, rest, t := units[0], units[1..], Serving(OneRow(term));
      if u.key in done {
        BarrenRun(term, rest, done, c, d, k);
        var more := RunUnits(t, rest, OPTIONS, done, c, d, k);
        assert [] + more.disks == more.disks;
      } else {
        var w, claim, stored, claimed := BarrenUnit(term, u, c, d, k);
        BarrenRun(term, rest, done, claim, claimed, w.requests);
        var more := RunUnits(t, rest, OPTIONS, done, claim, claimed, w.requests);
        assert LastDisk(d, [stored, claimed] + more.disks) == LastDisk(claimed, more.disks);
      }
    }
  }

  /** What completing a unit without rows writes. */
  lemma {:induction false} BarrenUnit(term: string, u: AcquisitionUnit, c: Checkpoint, d: Disk, k: nat)
      returns (w: WalkResult, claim: Checkpoint, stored: Disk, claimed: Disk)
    requires 1 <= u.limit && u.searchTerm != term && Barren(d.raw)
    ensures w == WalkUnit(Serving(OneRow(term)), u, OPTIONS.maxPages, k) && w.Exhausted?
    ensures claim == Claimed(u, OPTIONS.now, c)
    ensures stored == d.(raw := d.raw[u.key := ArtifactJson(u, w.pages, UnitRows(w.pages))])
    ensures claimed == stored.(checkpoint := Some(CheckpointJson(claim)))
    ensures Barren(claimed.raw)
  {
    w := WalkUnit(Serving(OneRow(term)), u, OPTIONS.maxPages, k);
    ServedUnit(term, u, k);
    BarrenOneMore(d.raw, u);
    claim := Claimed(u, OPTIONS.now, c);
    stored := d.(raw := d.raw[u.key := ArtifactJson(u, w.pages, UnitRows(w.pages))]);
    claimed := stored.(checkpoint := Some(CheckpointJson(claim)));
  }

  /** After write `n` of these, `claim` is stored, the key is claimed, and no row is stored. */
  ghost predicate ClaimsBarren(disks: seq<Disk>, n: nat, claim: Checkpoint, key: string) {
    && n < |disks|
    && key in claim.completedUnits
    && disks[n].checkpoint == Some(CheckpointJson(claim))
    && Barren(disks[n].raw)
  }

  ghost function FirstWrites(term: string, units: seq<AcquisitionUnit>, c: Checkpoint, d: Disk, k: nat): seq<Disk> {
    RunUnits(Serving(OneRow(term)), units, OPTIONS, {}, c, d, k).disks
  }

  /** A first run claims unit `i` at some write, no unit so far having listed the row. */
  lemma {:induction false} FirstClaims(term: string, units: seq<AcquisitionUnit>, c: Checkpoint, d: Disk, k: nat, i: nat)
      returns (claim: Checkpoint, n: nat)
    requires i < |units| && Barren(d.raw)
    requires forall j | 0 <= j <= i :: 1 <= units[j].limit && units[j].searchTerm != term
    ensures ClaimsBarren(FirstWrites(term, units, c, d, k), n, claim, units[i].key)
    decreases i
  {
    var w, first, stored, claimed := BarrenUnit(term, units[0], c, d, k);
    WritesOfFirst(term, units, c, d, k, w, stored, claimed);
    if i == 0 {
      claim, n := first, 1;
    } else {
      var more := FirstWrites(term, units[1..], first, claimed, w.requests);
      claim, n := FirstClaims(term, units[1..], first, claimed, w.requests, i - 1);
      ClaimsLater(more, stored, claimed, n, claim, units[i].key);
      n := n + 2;
    }
  }

  lemma {:induction false} ClaimsLater(disks: seq<Disk>, a: Disk, b: Disk, n: nat, claim: Checkpoint, key: string)
    requires ClaimsBarren(disks, n, claim, key)
    ensures ClaimsBarren([a, b] + disks, n + 2, claim, key)
  {
    assert ([a, b] + disks)[n + 2] == disks[n];
  }

  /** The writes of a run that completes its first unit: that unit's two, then those of the rest. */
  lemma {:induction false} WritesOfFirst(term: string, units: seq<AcquisitionUnit>, c: Checkpoint, d: Disk, k: nat,
                      w: WalkResult, stored: Disk, claimed: Disk)
    requires units != [] && w == WalkUnit(Serving(OneRow(term)), units[0], OPTIONS.maxPages, k) && w.Exhausted?
    requires stored == d.(raw := d.raw[units[0].key := ArtifactJson(units[0], w.pages, UnitRows(w.pages))])
    requires claimed == stored.(checkpoint := Some(CheckpointJson(Claimed(units[0], OPTIONS.now, c))))
    ensures FirstWrites(term, units, c, d, k)
         == [stored, claimed] + FirstWrites(term, units[1..], Claimed(units[0], OPTIONS.now, c), claimed, w.requests)
  {
    NextUnit(Serving(OneRow(term)), units, OPTIONS, {}, c, d, k, 0);
    assert units[0..] == units;
  }

  // ------------------------------------------------------------- exactly the plans that resume

  /** As the planner makes units: one search term is one unit. */
  ghost predicate KeyedByTerm(units: seq<AcquisitionUnit>) {
    && (forall i | 0 <= i < |units| :: 1 <= units[i].limit)
    && (forall i, j | 0 <= i < |units| && 0 <= j < |units| ::
          units[i].searchTerm == units[j].searchTerm ==> units[i] == units[j])
  }

  /** A history of crashes and failures from storage without a checkpoint, and a run that completes it. */
  ghost predicate Resumed(server: Server, units: seq<AcquisitionUnit>, lives: seq<Life>, disks: seq<Disk>,
                          t: Transcript, o: RunOptions) {
    && Identified(server)
    && Succession(server, units, lives, disks)
    && LoadCheckpoint(disks[0].checkpoint) == None
    && Honest(t, server)
    && !Run(t, units, o, disks[|lives|]).stopped
  }

  /** However the plan's units are acquired, the pool is the pool by definition. */
  ghost predicate AlwaysResumes(units: seq<AcquisitionUnit>) {
    forall server, lives, disks, t, o {:trigger Resumed(server, units, lives, disks, t, o)} ::
      Resumed(server, units, lives, disks, t, o) ==>
        YieldsPool(Run(t, units, o, disks[|lives|]), disks[|lives|], ReferencePool(server, units))
  }

  lemma {:induction false} ReferenceHasTheRow(units: seq<AcquisitionUnit>, m: nat)
    requires m < |units|
    ensures Identified(OneRow(units[m].searchTerm)) && ReferencePool(OneRow(units[m].searchTerm), units) != []
  {
    var server := OneRow(units[m].searchTerm);
    RowIsARow();
    IdsOfPlan(server, units, units[m]);
    assert RowId(ROW) in Ids([ROW]);
    DedupIds(ServerRows(server, units), {});
    assert RowId(ROW) in Ids(Dedup(ServerRows(server, units), {}));
  }

  /**
   * Unit `f` is the first under its key and unit `m` is another under it: let only `m` list the row,
   * and a run that dies once it has claimed `f` is resumed by one that completes without the row.
   */
  lemma {:induction false} SharedKeyLosesRows(units: seq<AcquisitionUnit>, f: nat, m: nat)
    returns (lives: seq<Life>, disks: seq<Disk>)
    requires KeyedByTerm(units) && f < |units| && m < |units|
    requires units[f].key == units[m].key && units[f] != units[m]
    requires forall j | 0 <= j < f :: units[j].key != units[f].key
    ensures var server, t := OneRow(units[m].searchTerm), Serving(OneRow(units[m].searchTerm));
            && Resumed(server, units, lives, disks, t, OPTIONS)
            && ReferencePool(server, units) != []
            && forall pool | YieldsPool(Run(t, units, OPTIONS, disks[|lives|]), disks[|lives|], pool) :: pool == []
  {
    var term := units[m].searchTerm;
    var server, t := OneRow(term), Serving(OneRow(term));
    ServingIsHonest(term);
    OtherTermsBefore(units, f, m);
    var claim, n, d := DiesAfter(units, f, term);
    lives, disks := [Life(t, OPTIONS, n + 1)], [Disk(None, map[]), d];
    OneLife(server, units, lives[0], disks[0], d);
    ResumeAfterLoss(units, f, m, claim, d);
    ReferenceHasTheRow(units, m);
  }

  lemma {:induction false} OneLife(server: Server, units: seq<AcquisitionUnit>, life: Life, before: Disk, after: Disk)
    requires Honest(life.t, server) && life.writes < |CrashPoints(life.t, units, life.o, before)|
    requires after == CrashPoints(life.t, units, life.o, before)[life.writes]
    ensures Succession(server, units, [life], [before, after])
  {
  }

  lemma {:induction false} OtherTermsBefore(units: seq<AcquisitionUnit>, f: nat, m: nat)
    requires KeyedByTerm(units) && f < |units| && m < |units|
    requires units[f].key == units[m].key && units[f] != units[m]
    requires forall j | 0 <= j < f :: units[j].key != units[f].key
    ensures forall j | 0 <= j <= f :: 1 <= units[j].limit && units[j].searchTerm != units[m].searchTerm
  {
    forall j | 0 <= j <= f
      ensures 1 <= units[j].limit && units[j].searchTerm != units[m].searchTerm
    {
      if units[j].searchTerm == units[m].searchTerm {
        assert false;
      }
    }
  }

  lemma {:induction false} DiesAfter(units: seq<AcquisitionUnit>, f: nat, term: string)
    returns (claim: Checkpoint, n: nat, d: Disk)
    requires f < |units| && forall j | 0 <= j <= f :: 1 <= units[j].limit && units[j].searchTerm != term
    ensures var points := CrashPoints(Serving(OneRow(term)), units, OPTIONS, Disk(None, map[]));
            n + 1 < |points| && points[n + 1] == d
    ensures ClaimsBarren([d], 0, claim, units[f].key)
  {
    var none := Disk(None, map[]);
    assert KeySet([]) == {};
    claim, n := FirstClaims(term, units, StartCheckpoint(OPTIONS, none), none, 0, f);
    d := FirstWrites(term, units, StartCheckpoint(OPTIONS, none), none, 0)[n];
  }

  lemma {:induction false} ResumeAfterLoss(units: seq<AcquisitionUnit>, f: nat, m: nat, claim: Checkpoint, d: Disk)
    requires KeyedByTerm(units) && f < |units| && m < |units| && units[f].key == units[m].key
    requires ClaimsBarren([d], 0, claim, units[f].key)
    ensures var r := Run(Serving(OneRow(units[m].searchTerm)), units, OPTIONS, d);
            !r.stopped && forall pool | YieldsPool(r, d, pool) :: pool == []
  {
    CheckpointRoundTrip(claim);
    var term := units[m].searchTerm;
    BarrenRun(term, units, KeySet(claim.completedUnits), claim, d, 0);
    var r := Run(Serving(OneRow(term)), units, OPTIONS, d);
    var raw := LastDisk(d, r.disks).raw;
    if Reconstruct(raw, r.checkpoint.completedUnits).Success? {
      BarrenPool(raw, r.checkpoint.completedUnits);
    }
  }

  lemma {:induction false} FirstUnderKey(units: seq<AcquisitionUnit>, i: nat) returns (f: nat)
    requires i < |units|
    ensures f <= i && units[f].key == units[i].key
    ensures forall j | 0 <= j < f :: units[j].key != units[f].key
    decreases i
  {
    if j :| 0 <= j < i && units[j].key == units[i].key {
      f := FirstUnderKey(units, j);
    } else {
      f := i;
    }
  }

  /** A planned list of units resumes to the right pool, whatever the server lists and whatever fails, iff no key has two terms. */
  lemma {:induction false} ResumesExactlyWhenKeysTellTermsApart(units: seq<AcquisitionUnit>)
    requires KeyedByTerm(units)
    ensures AlwaysResumes(units) <==>
            forall i, j | 0 <= i < |units| && 0 <= j < |units| ::
              units[i].key == units[j].key ==> units[i].searchTerm == units[j].searchTerm
  {
    if i, j :| 0 <= i < |units| && 0 <= j < |units| && units[i].key == units[j].key && units[i].searchTerm != units[j].searchTerm {
      var f := FirstUnderKey(units, i);
      var m := if units[f] == units[i] then j else i;
      var lives, disks := SharedKeyLosesRows(units, f, m);
      assert Resumed(OneRow(units[m].searchTerm), units, lives, disks, Serving(OneRow(units[m].searchTerm)), OPTIONS);
    } else {
      forall server, lives, disks, t, o | Resumed(server, units, lives, disks, t, o)
        ensures YieldsPool(Run(t, units, o, disks[|lives|]), disks[|lives|], ReferencePool(server, units))
      {
        CrashResume(server, units, lives, disks, t, o);
      }
    }
  }

  /** Two district names for which the planner makes one key. */
  lemma {:induction false} TwoTermsUnderOneKey() returns (lives: seq<Life>, disks: seq<Disk>)
    ensures var units := [AcquisitionUnit("district-karang-anyar", "Karang Anyar", 100),
                          AcquisitionUnit("district-karang-anyar", "Karang-Anyar", 100)];
            var server, t := OneRow("Karang-Anyar"), Serving(OneRow("Karang-Anyar"));
            && Resumed(server, units, lives, disks, t, OPTIONS)
            && ReferencePool(server, units) != []
            && forall pool | YieldsPool(Run(t, units, OPTIONS, disks[|lives|]), disks[|lives|], pool) :: pool == []
  {
    lives, disks := SharedKeyLosesRows([AcquisitionUnit("district-karang-anyar", "Karang Anyar", 100),
                                        AcquisitionUnit("district-karang-anyar", "Karang-Anyar", 100)], 0, 1);
  }
}
