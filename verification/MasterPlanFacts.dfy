/** What a plan says about each seed and each stored row, read off the loops that build it. */
module MasterPlanFacts {
  import opened Wrappers
  import opened JneMaster
  import opened JneDatabase
  import opened MasterPlan

  // ------------------------------------------------------------- looking rows up

  lemma {:induction false} ExistingIsTheRow(rows: seq<Location>, i: nat)
    requires i < |rows|
    requires forall j, k | 0 <= j < k < |rows| :: rows[j].code != rows[k].code || rows[j].kind != rows[k].kind
    ensures Existing(rows, rows[i].kind, rows[i].code) == Some(rows[i])
  {
    if i < |rows| - 1 {
      ExistingIsTheRow(rows[..|rows| - 1], i);
    }
  }

  // ------------------------------------------------------------- created and updated

  lemma {:induction false} CreatedFacts(seeds: seq<Seed>, rows: seq<Location>, kind: Kind)
    ensures forall s | s in CreatedOf(seeds, rows, kind) :: s in seeds && Existing(rows, kind, s.code).None?
    ensures forall s | s in seeds && Existing(rows, kind, s.code).None? :: s in CreatedOf(seeds, rows, kind)
  {
    if seeds != [] {
      CreatedFacts(seeds[..|seeds| - 1], rows, kind);
      assert seeds == seeds[..|seeds| - 1] + [seeds[|seeds| - 1]];
    }
  }

  lemma {:induction false} CreatedOnce(seeds: seq<Seed>, rows: seq<Location>, kind: Kind)
    requires DistinctCodes(seeds)
    ensures DistinctCodes(CreatedOf(seeds, rows, kind))
  {
    if seeds != [] {
      var n := |seeds| - 1;
      CreatedOnce(seeds[..n], rows, kind);
      CreatedFacts(seeds[..n], rows, kind);
      var before, c := CreatedOf(seeds[..n], rows, kind), CreatedOf(seeds, rows, kind);
      forall i, j | 0 <= i < j < |c| ensures c[i].code != c[j].code {
        assert before[i] in before;
        var k :| 0 <= k < n && seeds[k] == before[i];
      }
    }
  }

  /** `u` is the update of the stored row under its seed's code. */
  ghost predicate IsUpdate(u: Update, seeds: seq<Seed>, rows: seq<Location>, r: Request) {
    && u.seed in seeds
    && Existing(rows, r.kind, u.seed.code).Some?
    && u == UpdateOf(Existing(rows, r.kind, u.seed.code).value, u.seed, r)
    && u.changes.Any()
  }

  lemma {:induction false} UpdatedFacts(seeds: seq<Seed>, rows: seq<Location>, r: Request)
    ensures forall u | u in UpdatedOf(seeds, rows, r) :: IsUpdate(u, seeds, rows, r)
    ensures forall s | s in seeds && Existing(rows, r.kind, s.code).Some?
                       && ChangesOf(Existing(rows, r.kind, s.code).value, s, r.source, r.sourceFetchedAt).Any() ::
              UpdateOf(Existing(rows, r.kind, s.code).value, s, r) in UpdatedOf(seeds, rows, r)
  {
    if seeds != [] {
      UpdatedFacts(seeds[..|seeds| - 1], rows, r);
      assert seeds == seeds[..|seeds| - 1] + [seeds[|seeds| - 1]];
    }
  }

  ghost predicate DistinctIds(updated: seq<Update>) {
    forall i, j | 0 <= i < j < |updated| :: updated[i].id != updated[j].id
  }

  lemma {:induction false} UpdatedOnce(seeds: seq<Seed>, rows: seq<Location>, r: Request, nextId: nat)
    requires DistinctCodes(seeds)
    requires LocationKeys(rows, nextId)
    ensures DistinctIds(UpdatedOf(seeds, rows, r))
  {
    if seeds != [] {
      var n := |seeds| - 1;
      UpdatedOnce(seeds[..n], rows, r, nextId);
      UpdatedFacts(seeds[..n], rows, r);
      var before := UpdatedOf(seeds[..n], rows, r);
      var prev := Existing(rows, r.kind, seeds[n].code);
      if prev.Some? {
        forall i | 0 <= i < |before| ensures before[i].id != prev.value.id {
          assert IsUpdate(before[i], seeds[..n], rows, r);
          var other := Existing(rows, r.kind, before[i].seed.code).value;
          assert other != prev.value;
        }
      }
    }
  }

  /** With nothing left to change, every seed counts as already stored. */
  lemma {:induction false} NothingToChange(seeds: seq<Seed>, rows: seq<Location>, r: Request)
    requires forall s | s in seeds ::
               Existing(rows, r.kind, s.code).Some?
               && !ChangesOf(Existing(rows, r.kind, s.code).value, s, r.source, r.sourceFetchedAt).Any()
    ensures CreatedOf(seeds, rows, r.kind) == [] && UpdatedOf(seeds, rows, r) == [] && UnchangedOf(seeds, rows, r) == |seeds|
  {
    if seeds != [] {
      var seed := seeds[|seeds| - 1];
      assert seed in seeds;
      NothingToChange(seeds[..|seeds| - 1], rows, r);
    }
  }

  /** The seeds whose stored row is as they say. */
  function AlikeOf(seeds: seq<Seed>, rows: seq<Location>, r: Request): (alike: seq<Seed>)
    ensures forall s | s in alike :: Existing(rows, r.kind, s.code).Some?
                                     && !ChangesOf(Existing(rows, r.kind, s.code).value, s, r.source, r.sourceFetchedAt).Any()
  {
    if seeds == [] then []
    else
      var before, seed := AlikeOf(seeds[..|seeds| - 1], rows, r), seeds[|seeds| - 1];
      match Existing(rows, r.kind, seed.code)
      case None => before
      case Some(prev) => if ChangesOf(prev, seed, r.source, r.sourceFetchedAt).Any() then before else before + [seed]
  }

  function SeedsOf(updated: seq<Update>): seq<Seed> {
    seq(|updated|, i requires 0 <= i < |updated| => updated[i].seed)
  }

  /** The three parts that a plan makes of the seeds. */
  ghost function Parts(seeds: seq<Seed>, rows: seq<Location>, r: Request): multiset<Seed> {
    multiset(CreatedOf(seeds, rows, r.kind)) + multiset(SeedsOf(UpdatedOf(seeds, rows, r))) + multiset(AlikeOf(seeds, rows, r))
  }

  lemma {:induction false} SeedsOneMore(before: seq<Update>, u: Update)
    ensures SeedsOf(before + [u]) == SeedsOf(before) + [u.seed]
  {
  }

  lemma {:induction false} PartsOneMore(seeds: seq<Seed>, rows: seq<Location>, r: Request)
    requires seeds != []
    ensures Parts(seeds, rows, r) == Parts(seeds[..|seeds| - 1], rows, r) + multiset{seeds[|seeds| - 1]}
  {
    var front, seed := seeds[..|seeds| - 1], seeds[|seeds| - 1];
    var created, updated, alike := CreatedOf(front, rows, r.kind), UpdatedOf(front, rows, r), AlikeOf(front, rows, r);
    match Existing(rows, r.kind, seed.code)
    case None =>
      assert UpdatedOf(seeds, rows, r) == updated && AlikeOf(seeds, rows, r) == alike;
      assert CreatedOf(seeds, rows, r.kind) == created + [seed];
    case Some(prev) =>
      assert CreatedOf(seeds, rows, r.kind) == created;
      if ChangesOf(prev, seed, r.source, r.sourceFetchedAt).Any() {
        SeedsOneMore(updated, UpdateOf(prev, seed, r));
        assert UpdatedOf(seeds, rows, r) == updated + [UpdateOf(prev, seed, r)] && AlikeOf(seeds, rows, r) == alike;
      } else {
        assert UpdatedOf(seeds, rows, r) == updated && AlikeOf(seeds, rows, r) == alike + [seed];
      }
  }

  lemma {:induction false} AlikeCount(seeds: seq<Seed>, rows: seq<Location>, r: Request)
    ensures |AlikeOf(seeds, rows, r)| == UnchangedOf(seeds, rows, r)
  {
    if seeds != [] {
      AlikeCount(seeds[..|seeds| - 1], rows, r);
    }
  }

  /** Every seed is created, updated or already stored as it is, each as often as it is listed. */
  lemma {:induction false} PlanPartitionsTheSeeds(seeds: seq<Seed>, rows: seq<Location>, r: Request)
    ensures Parts(seeds, rows, r) == multiset(seeds)
    ensures |AlikeOf(seeds, rows, r)| == UnchangedOf(seeds, rows, r)
  {
    AlikeCount(seeds, rows, r);
    PartsAreTheSeeds(seeds, rows, r);
  }

  lemma {:induction false} PartsAreTheSeeds(seeds: seq<Seed>, rows: seq<Location>, r: Request)
    ensures Parts(seeds, rows, r) == multiset(seeds)
  {
    if seeds == [] {
      NoParts(rows, r);
    } else {
      var n := |seeds| - 1;
      PartsAreTheSeeds(seeds[..n], rows, r);
      PartsOneMore(seeds, rows, r);
      SeedsWithLast(seeds[..n], seeds[n]);
      assert seeds == seeds[..n] + [seeds[n]];
    }
  }

  lemma {:induction false} NoParts(rows: seq<Location>, r: Request)
    ensures Parts([], rows, r) == multiset{}
  {
    assert SeedsOf([]) == [];
  }

  lemma {:induction false} SeedsWithLast(front: seq<Seed>, last: Seed)
    ensures multiset(front + [last]) == multiset(front) + multiset{last}
  {
  }

  lemma {:induction false} MissingFacts(rows: seq<Location>, r: Request, mappings: seq<MappingView>)
    ensures forall m | m in MissingOf(rows, r, mappings) ::
              exists e | e in rows :: IsMissing(e, r) && m == MissingRow(e, r, mappings)
    ensures forall e | e in rows && IsMissing(e, r) :: MissingRow(e, r, mappings) in MissingOf(rows, r, mappings)
  {
    if rows != [] {
      MissingFacts(rows[..|rows| - 1], r, mappings);
      assert rows == rows[..|rows| - 1] + [rows[|rows| - 1]];
    }
  }

  /** A stored row of the imported kind is updated or missing, never both. */
  lemma {:induction false} UpdatedIsNotMissing(r: Request, state: MasterState, u: Update, m: Missing)
    requires u in PlanMaster(r, state).updated && m in PlanMaster(r, state).missing
    ensures u.code != m.code
  {
    UpdatedFacts(r.seeds, state.existing, r);
    MissingFacts(state.existing, r, state.mappings);
    assert u.seed.code in SeedCodes(r.seeds);
  }

  lemma {:induction false} SomeActive(mappings: seq<MappingView>, kind: Kind, code: string, status: Status)
    ensures CountActive(mappings, kind, code, status) == 0 <==>
            forall m | m in mappings :: !(Concerns(m, kind, code) && m.isActive && m.status == status)
  {
    if mappings != [] {
      SomeActive(mappings[..|mappings| - 1], kind, code, status);
      assert mappings == mappings[..|mappings| - 1] + [mappings[|mappings| - 1]];
    }
  }

  // ------------------------------------------------------------- blockers

  lemma {:induction false} AllEmpty(a: seq<BlockerCode>, b: seq<BlockerCode>, c: seq<BlockerCode>, d: seq<BlockerCode>,
                 e: seq<BlockerCode>, f: seq<BlockerCode>, g: seq<BlockerCode>)
    ensures a + b + c + d + e + f + g == [] <==> a == b == c == d == e == f == g == []
  {
    assert |a + b + c + d + e + f + g| == |a| + |b| + |c| + |d| + |e| + |f| + |g|;
  }

  /** A plan has no blocker exactly when no part of it has one. */
  lemma {:induction false} BlockerFree(r: Request, state: MasterState, updated: seq<Update>, missing: seq<Missing>,
                                       writes: nat, hash: PlanIdentity)
    ensures Blockers(r, state, updated, missing, writes, hash) == [] <==>
              && RenameBlocks(updated, r, state.mappings) == []
              && (writes > 0 ==> ReviewBlocks(r.reviewedRenames, updated) == [])
              && AckBlocks(ScanAcks(state.mappings, r, missing)) == []
              && SnapshotBlocks(r) == []
              && ProvenanceBlocks(r) == []
              && StateBlocks(state.existing, r) == []
              && ReviewedPlanBlocks(r, writes, hash) == []
  {
    AllEmpty(RenameBlocks(updated, r, state.mappings), if writes > 0 then ReviewBlocks(r.reviewedRenames, updated) else [],
             AckBlocks(ScanAcks(state.mappings, r, missing)), SnapshotBlocks(r), ProvenanceBlocks(r),
             StateBlocks(state.existing, r), ReviewedPlanBlocks(r, writes, hash));
  }

  lemma {:induction false} ProvenanceFree(r: Request)
    ensures ProvenanceBlocks(r) == [] ==> r.sourceFetchedAt.Some?
  {
    assert r.sourceFetchedAt.None? ==> ProvenanceBlocks(r)[0] == FETCH_TIME_UNKNOWN;
  }

  /** A plan that may be written has a capture time and, when expectations are required, the reviewed hash. */
  lemma {:induction false} BlockerFreeIsReviewed(r: Request, state: MasterState, updated: seq<Update>,
                                                 missing: seq<Missing>, writes: nat, hash: PlanIdentity)
    requires Blockers(r, state, updated, missing, writes, hash) == []
    ensures r.sourceFetchedAt.Some?
    ensures r.requireExpectations && writes > 0 ==> r.expected.plan == Some(hash)
  {
    BlockerFree(r, state, updated, missing, writes, hash);
    ProvenanceFree(r);
  }

  // ------------------------------------------------------------- acknowledgments

  ghost predicate DistinctMappings(mappings: seq<MappingView>) {
    forall i, j | 0 <= i < j < |mappings| :: mappings[i].id != mappings[j].id
  }

  ghost predicate DistinctAcks(acks: seq<Acknowledgment>) {
    forall i, j | 0 <= i < j < |acks| :: acks[i].mappingId != acks[j].mappingId
  }

  lemma {:induction false} AckMapFacts(acks: seq<Acknowledgment>)
    requires DistinctAcks(acks)
    ensures forall a | a in acks :: a.mappingId in AckMap(acks) && AckMap(acks)[a.mappingId] == a
    ensures forall id | id in AckMap(acks) :: AckMap(acks)[id] in acks && AckMap(acks)[id].mappingId == id
  {
    if acks != [] {
      AckMapFacts(acks[..|acks| - 1]);
      assert acks == acks[..|acks| - 1] + [acks[|acks| - 1]];
    }
  }

  /** The ids of the mappings that need an acknowledgment. */
  ghost function AckIds(mappings: seq<MappingView>, r: Request, missing: seq<Missing>): set<nat> {
    set m | m in mappings && NeedsAck(m, r.kind, missing) :: m.id
  }

  /** Mapping `m`, when it needs one, has an acknowledgment that is right in every field. */
  ghost predicate IsAcknowledged(m: MappingView, r: Request, missing: seq<Missing>, acks: map<nat, Acknowledgment>) {
    NeedsAck(m, r.kind, missing) ==>
      m.id in acks && Acknowledges(acks[m.id], AckTarget(m, missing), r.sha256)
  }

  lemma {:induction false} AckIdsOneMore(mappings: seq<MappingView>, m: MappingView, r: Request, missing: seq<Missing>)
    ensures (forall x | x in mappings :: x.id != m.id) ==> m.id !in AckIds(mappings, r, missing)
    ensures AckIds(mappings + [m], r, missing)
         == AckIds(mappings, r, missing) + if NeedsAck(m, r.kind, missing) then {m.id} else {}
  {
  }

  lemma {:induction false} ScanOneMore(before: AckScan, m: MappingView, r: Request, missing: seq<Missing>,
                                       acks: map<nat, Acknowledgment>)
    requires NeedsAck(m, r.kind, missing)
    requires m.id in before.pending <==> m.id in acks
    requires m.id in acks ==> before.pending[m.id] == acks[m.id]
    ensures var s := ScanOne(before, AckTarget(m, missing), r.sha256);
            && s.pending == before.pending - {m.id}
            && (s.blocks == [] <==> before.blocks == [] && IsAcknowledged(m, r, missing, acks))
  {
  }

  lemma {:induction false} ScanPending(mappings: seq<MappingView>, r: Request, missing: seq<Missing>)
    ensures ScanAcks(mappings, r, missing).pending == AckMap(r.missingAcks) - AckIds(mappings, r, missing)
  {
    if mappings == [] {
      assert AckIds(mappings, r, missing) == {};
    } else {
      var n := |mappings| - 1;
      var front, m, acks := mappings[..n], mappings[n], AckMap(r.missingAcks);
      ScanPending(front, r, missing);
      assert mappings == front + [m];
      AckIdsOneMore(front, m, r, missing);
      assert acks - AckIds(front, r, missing) - {m.id} == acks - (AckIds(front, r, missing) + {m.id});
    }
  }

  ghost predicate AllAcknowledged(mappings: seq<MappingView>, r: Request, missing: seq<Missing>) {
    forall m | m in mappings :: IsAcknowledged(m, r, missing, AckMap(r.missingAcks))
  }

  lemma {:induction false} AllAcknowledgedOneMore(front: seq<MappingView>, m: MappingView, r: Request,
                                                  missing: seq<Missing>)
    ensures AllAcknowledged(front + [m], r, missing)
       <==> AllAcknowledged(front, r, missing) && IsAcknowledged(m, r, missing, AckMap(r.missingAcks))
  {
  }

  lemma {:induction false} ScanBlocks(mappings: seq<MappingView>, r: Request, missing: seq<Missing>)
    requires DistinctMappings(mappings)
    ensures ScanAcks(mappings, r, missing).blocks == [] <==> AllAcknowledged(mappings, r, missing)
  {
    if mappings != [] {
      var n := |mappings| - 1;
      var front, m := mappings[..n], mappings[n];
      ScanBlocks(front, r, missing);
      assert mappings == front + [m];
      AllAcknowledgedOneMore(front, m, r, missing);
      if NeedsAck(m, r.kind, missing) {
        ScanPending(front, r, missing);
        AckIdsOneMore(front, m, r, missing);
        ScanOneMore(ScanAcks(front, r, missing), m, r, missing, AckMap(r.missingAcks));
      }
    }
  }

  lemma {:induction false} ScanFacts(mappings: seq<MappingView>, r: Request, missing: seq<Missing>)
    requires DistinctMappings(mappings)
    ensures var s := ScanAcks(mappings, r, missing);
            && s.pending == AckMap(r.missingAcks) - AckIds(mappings, r, missing)
            && (s.blocks == [] <==> AllAcknowledged(mappings, r, missing))
  {
    ScanPending(mappings, r, missing);
    ScanBlocks(mappings, r, missing);
  }

  ghost predicate EveryAckFits(mappings: seq<MappingView>, r: Request, missing: seq<Missing>) {
    forall a | a in r.missingAcks :: exists m | m in mappings :: NeedsAck(m, r.kind, missing) && m.id == a.mappingId
  }

  ghost predicate EveryTargetFits(mappings: seq<MappingView>, r: Request, missing: seq<Missing>) {
    forall m | m in mappings && NeedsAck(m, r.kind, missing) ::
      exists a | a in r.missingAcks :: a.mappingId == m.id && Acknowledges(a, AckTarget(m, missing), r.sha256)
  }

  /** Each acknowledgment belongs to one mapping that needs it, and each such mapping has one that fits. */
  ghost predicate AcksMatchMappings(mappings: seq<MappingView>, r: Request, missing: seq<Missing>) {
    EveryAckFits(mappings, r, missing) && EveryTargetFits(mappings, r, missing)
  }

  lemma {:induction false} NothingPending(acks: map<nat, Acknowledgment>, used: set<nat>)
    ensures |acks - used| == 0 <==> forall id | id in acks :: id in used
  {
    if forall id | id in acks :: id in used {
      assert acks - used == map[];
    } else {
      var id :| id in acks && id !in used;
      assert id in acks - used;
      assert |acks - used| != 0;
    }
  }

  lemma {:induction false} ScanIsClean(s: AckScan)
    ensures AckBlocks(s) == [] <==> s.blocks == [] && |s.pending| == 0
  {
    assert |AckBlocks(s)| == |s.blocks| + |s.pending|;
  }

  lemma {:induction false} AcknowledgedExactly(mappings: seq<MappingView>, r: Request, missing: seq<Missing>,
                                               m: MappingView)
    requires DistinctAcks(r.missingAcks) && NeedsAck(m, r.kind, missing)
    ensures IsAcknowledged(m, r, missing, AckMap(r.missingAcks)) <==>
            exists a | a in r.missingAcks :: a.mappingId == m.id && Acknowledges(a, AckTarget(m, missing), r.sha256)
  {
    AckMapFacts(r.missingAcks);
  }

  lemma {:induction false} EveryAckIsUsed(mappings: seq<MappingView>, r: Request, missing: seq<Missing>)
    requires DistinctAcks(r.missingAcks)
    ensures |AckMap(r.missingAcks) - AckIds(mappings, r, missing)| == 0 <==> EveryAckFits(mappings, r, missing)
  {
    AckMapFacts(r.missingAcks);
    NothingPending(AckMap(r.missingAcks), AckIds(mappings, r, missing));
    assert (forall id | id in AckMap(r.missingAcks) :: id in AckIds(mappings, r, missing)) <==>
           (forall a | a in r.missingAcks :: a.mappingId in AckIds(mappings, r, missing));
  }

  lemma {:induction false} EveryMappingIsAcknowledged(mappings: seq<MappingView>, r: Request, missing: seq<Missing>)
    requires DistinctAcks(r.missingAcks)
    ensures (forall m | m in mappings :: IsAcknowledged(m, r, missing, AckMap(r.missingAcks))) <==> EveryTargetFits(mappings, r, missing)
  {
    forall m | m in mappings && NeedsAck(m, r.kind, missing)
      ensures IsAcknowledged(m, r, missing, AckMap(r.missingAcks)) <==>
              exists a | a in r.missingAcks :: a.mappingId == m.id && Acknowledges(a, AckTarget(m, missing), r.sha256)
    {
      AcknowledgedExactly(mappings, r, missing, m);
    }
  }

  /**
   * With distinct mapping ids and one acknowledgment per id: none of the three acknowledgment
   * blockers is raised exactly when the acknowledgments pair off with the active MATCHED mappings
   * on missing codes, each naming its mapping, name, status and snapshot, reviewer, reason and date.
   */
  lemma {:induction false} AckBlockersExactly(mappings: seq<MappingView>, r: Request, missing: seq<Missing>)
    requires DistinctMappings(mappings) && DistinctAcks(r.missingAcks)
    ensures AckBlocks(ScanAcks(mappings, r, missing)) == [] <==> AcksMatchMappings(mappings, r, missing)
  {
    var s := ScanAcks(mappings, r, missing);
    ScanIsClean(s);
    assert |s.pending| == 0 <==> EveryAckFits(mappings, r, missing) by {
      ScanFacts(mappings, r, missing);
      EveryAckIsUsed(mappings, r, missing);
    }
    assert s.blocks == [] <==> EveryTargetFits(mappings, r, missing) by {
      ScanFacts(mappings, r, missing);
      EveryMappingIsAcknowledged(mappings, r, missing);
    }
  }
}
