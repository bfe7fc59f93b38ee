/** What a manifest import leaves behind. */
module ManifestProofs {
  // What a manifest import leaves behind: one live mapping for each accepted district, and a re-run
  // that changes nothing.

  import opened Wrappers
  import opened JneMaster
  import opened JneDatabase
  import opened MasterPlan
  import opened Manifest

  // ------------------------------------------------------------- one row per district

  lemma {:induction false} OutcomeAt(db: Db, entries: seq<ManifestEntry>, all: seq<ManifestEntry>, allowed: set<Source>,
                                     i: nat)
    requires i < |entries|
    ensures Outcomes(db, entries, all, allowed)[i] == Decide(db, entries[i], all, SeenPairs(entries[..i], all), allowed)
  {
    var n := |entries| - 1;
    if i < n {
      OutcomeAt(db, entries[..n], all, allowed, i);
      assert entries[..n][..i] == entries[..i];
    }
  }

  /** What an accepted row has been checked against. */
  ghost predicate AcceptFacts(db: Db, e: ManifestEntry, w: CandidateWrite, allowed: set<Source>) {
    var d, l := DistrictByCode(db.districts, e.districtCode), Existing(db.locations, DESTINATION, e.jneCode);
    && d.Some? && l.Some? && w == CandidateWrite(d.value.id, l.value.id, e)
    && d.value.isActive && d.value.cityActive && l.value.isActive && l.value.source in allowed
    && PairOf(db.mappings, w.districtId, w.locationId).None?
    && !ApprovedElsewhere(db.mappings, w.districtId, w.locationId)
    && !PendingElsewhere(db.mappings, w.districtId, w.locationId)
  }

  lemma {:induction false} AcceptedAt(db: Db, entries: seq<ManifestEntry>, allowed: set<Source>, i: nat)
    requires i < |entries| && Outcomes(db, entries, entries, allowed)[i].Accept?
    ensures Claims(entries[i], entries) && (entries[i].districtCode, entries[i].jneCode) !in SeenPairs(entries[..i], entries)
    ensures AcceptFacts(db, entries[i], Outcomes(db, entries, entries, allowed)[i].write, allowed)
  {
    OutcomeAt(db, entries, entries, allowed, i);
  }

  lemma {:induction false} TwoCodes(entries: seq<ManifestEntry>, a: ManifestEntry, b: ManifestEntry)
    requires a in entries && b in entries && a.districtCode == b.districtCode && !Conflicts(entries, a)
    ensures a.jneCode == b.jneCode
  {
    var codes := CodesOf(entries, a.districtCode);
    assert a.jneCode in codes && b.jneCode in codes;
    if a.jneCode != b.jneCode {
      assert {a.jneCode, b.jneCode} <= codes;
      SubsetSize({a.jneCode, b.jneCode}, codes);
    }
  }

  lemma {:induction false} SubsetSize(a: set<string>, b: set<string>)
    requires a <= b
    ensures |a| <= |b|
  {
    if a != {} {
      var x :| x in a;
      SubsetSize(a - {x}, b - {x});
    }
  }

  /** Once a row has claimed its district, no later row of that district gets past the duplicate check. */
  lemma {:induction false} LaterRowsAreRefused(db: Db, entries: seq<ManifestEntry>, allowed: set<Source>, i: nat, j: nat)
    requires i < j < |entries| && entries[i].districtCode == entries[j].districtCode && Claims(entries[i], entries)
    ensures Outcomes(db, entries, entries, allowed)[j].Reject?
    ensures Claims(entries[j], entries) ==> (entries[j].districtCode, entries[j].jneCode) in SeenPairs(entries[..j], entries)
  {
    OutcomeAt(db, entries, entries, allowed, j);
    TwoCodes(entries, entries[i], entries[j]);
    assert entries[..j][i] == entries[i];
  }

  /** At most one row of a district is accepted. */
  lemma {:induction false} OneAcceptPerDistrict(db: Db, entries: seq<ManifestEntry>, allowed: set<Source>, i: nat, j: nat)
    requires DistrictKeys(db.districts)
    requires i < j < |entries|
    requires Outcomes(db, entries, entries, allowed)[i].Accept? && Outcomes(db, entries, entries, allowed)[j].Accept?
    ensures Outcomes(db, entries, entries, allowed)[i].write.districtId != Outcomes(db, entries, entries, allowed)[j].write.districtId
  {
    AcceptedAt(db, entries, allowed, i);
    AcceptedAt(db, entries, allowed, j);
    var d, d' := DistrictByCode(db.districts, entries[i].districtCode).value, DistrictByCode(db.districts, entries[j].districtCode).value;
    if d.id == d'.id {
      SameDistrict(db.districts, d, d');
      LaterRowsAreRefused(db, entries, allowed, i, j);
    }
  }

  lemma {:induction false} SameDistrict(rows: seq<District>, a: District, b: District)
    requires DistrictKeys(rows) && a in rows && b in rows && a.id == b.id
    ensures a == b
  {
  }

  lemma {:induction false} WritesAreAccepted(rows: seq<Outcome>, a: nat)
    requires a < |Writes(rows)|
    ensures exists i | 0 <= i < |rows| :: rows[i].Accept? && rows[i].write == Writes(rows)[a]
  {
    assert Writes(rows)[a] in Writes(rows);
    var i :| 0 <= i < |rows| && rows[i] == Accept(Writes(rows)[a]);
  }

  lemma {:induction false} WritesInOrder(db: Db, entries: seq<ManifestEntry>, allowed: set<Source>, n: nat)
    requires DistrictKeys(db.districts) && n <= |entries|
    ensures var w := Writes(Outcomes(db, entries, entries, allowed)[..n]); DistinctDistricts(w)
  {
    var rows := Outcomes(db, entries, entries, allowed);
    if n > 0 {
      WritesInOrder(db, entries, allowed, n - 1);
      assert rows[..n][..n - 1] == rows[..n - 1];
      var before := Writes(rows[..n - 1]);
      if rows[n - 1].Accept? {
        forall a | 0 <= a < |before| ensures before[a].districtId != rows[n - 1].write.districtId {
          WritesAreAccepted(rows[..n - 1], a);
          var i :| 0 <= i < n - 1 && rows[..n - 1][i].Accept? && rows[..n - 1][i].write == before[a];
          OneAcceptPerDistrict(db, entries, allowed, i, n - 1);
        }
      }
    }
  }

  ghost predicate DistinctDistricts(writes: seq<CandidateWrite>) {
    forall a, b | 0 <= a < b < |writes| :: writes[a].districtId != writes[b].districtId
  }

  // ------------------------------------------------------------- exactly one live mapping

  /** A mapping that resolves a district, or waits to. */
  predicate Live(m: Mapping) {
    m.isActive && (m.status == MATCHED || m.status == REVIEW_REQUIRED)
  }

  function LiveMappings(rows: seq<Mapping>, districtId: nat): seq<Mapping> {
    if rows == [] then []
    else
      LiveMappings(rows[..|rows| - 1], districtId) +
      if Live(rows[|rows| - 1]) && rows[|rows| - 1].districtId == districtId then [rows[|rows| - 1]] else []
  }

  lemma {:induction false} NoneLive(rows: seq<Mapping>, districtId: nat)
    requires forall m | m in rows :: !(Live(m) && m.districtId == districtId)
    ensures LiveMappings(rows, districtId) == []
  {
    if rows != [] {
      assert rows == rows[..|rows| - 1] + [rows[|rows| - 1]];
      NoneLive(rows[..|rows| - 1], districtId);
    }
  }

  lemma {:induction false} FingerprintFacts(rows: seq<Mapping>, districts: set<nat>)
    ensures forall m | m in rows && m.districtId in districts :: KeyOf(m) in Fingerprint(rows, districts)
    ensures forall k | k in Fingerprint(rows, districts) :: exists m | m in rows :: KeyOf(m) == k && m.districtId in districts
  {
    if rows != [] {
      assert rows == rows[..|rows| - 1] + [rows[|rows| - 1]];
      FingerprintFacts(rows[..|rows| - 1], districts);
    }
  }

  /** The re-read in the transaction shows the same live mappings the validation saw. */
  lemma {:induction false} SameFingerprint(seen: seq<Mapping>, now: seq<Mapping>, districts: set<nat>, districtId: nat)
    requires Fingerprint(seen, districts) == Fingerprint(now, districts) && districtId in districts
    requires forall m | m in seen :: !(Live(m) && m.districtId == districtId)
    ensures forall m | m in now :: !(Live(m) && m.districtId == districtId)
  {
    FingerprintFacts(seen, districts);
    FingerprintFacts(now, districts);
    forall m | m in now && m.districtId == districtId ensures !Live(m) {
      assert KeyOf(m) in Fingerprint(seen, districts);
      var x :| x in seen && KeyOf(x) == KeyOf(m);
    }
  }

  lemma {:induction false} AcceptedHasNoneLive(db: Db, e: ManifestEntry, w: CandidateWrite, allowed: set<Source>)
    requires AcceptFacts(db, e, w, allowed)
    ensures forall m | m in db.mappings :: !(Live(m) && m.districtId == w.districtId)
  {
  }

  lemma {:induction false} LiveOfAdded(rows: seq<Mapping>, writes: seq<CandidateWrite>, nextId: nat, now: int, a: nat)
    requires DistinctDistricts(writes) && a < |writes|
    requires forall m | m in rows :: !(Live(m) && m.districtId == writes[a].districtId)
    ensures LiveMappings(rows + NewMappings(writes, nextId, now), writes[a].districtId) == [NewMapping(writes[a], nextId + a, now)]
  {
    var n := |writes| - 1;
    OneMappingMore(rows, writes, nextId, now, writes[a].districtId);
    if a < n {
      LiveOfAdded(rows, writes[..n], nextId, now, a);
    } else {
      NoneOfTheOthers(writes, nextId, now);
      var fewer := NewMappings(writes[..n], nextId, now);
      forall m | m in rows + fewer ensures !(Live(m) && m.districtId == writes[a].districtId) {
        assert m in rows || m in fewer;
      }
      NoneLive(rows + fewer, writes[a].districtId);
    }
  }

  lemma {:induction false} OneMappingMore(rows: seq<Mapping>, writes: seq<CandidateWrite>, nextId: nat, now: int,
                                          districtId: nat)
    requires writes != []
    ensures var n := |writes| - 1;
            var last := NewMapping(writes[n], nextId + n, now);
            LiveMappings(rows + NewMappings(writes, nextId, now), districtId)
            == LiveMappings(rows + NewMappings(writes[..n], nextId, now), districtId)
               + if Live(last) && last.districtId == districtId then [last] else []
  {
    var n := |writes| - 1;
    assert (rows + NewMappings(writes, nextId, now))[..|rows| + n] == rows + NewMappings(writes[..n], nextId, now);
  }

  lemma {:induction false} NoneOfTheOthers(writes: seq<CandidateWrite>, nextId: nat, now: int)
    requires DistinctDistricts(writes) && writes != []
    ensures forall m | m in NewMappings(writes[..|writes| - 1], nextId, now) :: m.districtId != writes[|writes| - 1].districtId
  {
    var fewer := NewMappings(writes[..|writes| - 1], nextId, now);
    forall m | m in fewer ensures m.districtId != writes[|writes| - 1].districtId {
      var i :| 0 <= i < |fewer| && fewer[i] == m;
    }
  }

  lemma {:induction false} WrittenHasNoneLive(seen: Db, entries: seq<ManifestEntry>, allowed: set<Source>, a: nat)
    requires a < |Writes(Outcomes(seen, entries, entries, allowed))|
    ensures var w := Writes(Outcomes(seen, entries, entries, allowed))[a];
            forall m | m in seen.mappings :: !(Live(m) && m.districtId == w.districtId)
  {
    var rows := Outcomes(seen, entries, entries, allowed);
    WritesAreAccepted(rows, a);
    var i :| 0 <= i < |rows| && rows[i].Accept? && rows[i].write == Writes(rows)[a];
    AcceptedAt(seen, entries, allowed, i);
    AcceptedHasNoneLive(seen, entries[i], Writes(rows)[a], allowed);
  }

  /** Targets whose stored mappings are as at validation get exactly one live mapping each. */
  lemma {:induction false} TargetHasOneLive(seen: Db, db: Db, writes: seq<CandidateWrite>, now: int, a: nat)
    requires DistinctDistricts(writes) && a < |writes| && writes[a].districtId in TargetDistricts(writes)
    requires Fingerprint(seen.mappings, TargetDistricts(writes)) == Fingerprint(db.mappings, TargetDistricts(writes))
    requires forall m | m in seen.mappings :: !(Live(m) && m.districtId == writes[a].districtId)
    ensures LiveMappings(db.mappings + NewMappings(writes, db.nextId, now), writes[a].districtId)
         == [NewMapping(writes[a], db.nextId + a, now)]
  {
    SameFingerprint(seen.mappings, db.mappings, TargetDistricts(writes), writes[a].districtId);
    LiveOfAdded(db.mappings, writes, db.nextId, now, a);
  }

  lemma {:induction false} CommittedRows(seen: Db, db: Db, writes: seq<CandidateWrite>, now: int)
    requires CandidateTransaction(seen, db, writes, now).Some?
    ensures CandidateTransaction(seen, db, writes, now).value.mappings == db.mappings + NewMappings(writes, db.nextId, now)
    ensures Fingerprint(seen.mappings, TargetDistricts(writes)) == Fingerprint(db.mappings, TargetDistricts(writes))
  {
  }

  /**
   * A committed manifest import leaves each of its districts with exactly one live mapping: the new
   * candidate, awaiting approval, for the code the manifest names.
   */
  lemma {:induction false} ExactlyOneLive(seen: Db, db: Db, entries: seq<ManifestEntry>, allowed: set<Source>,
                                          allowPartial: bool, now: int, a: nat)
    requires DistrictKeys(seen.districts)
    requires ImportManifest(seen, db, entries, allowed, allowPartial, now).Some?
    requires a < |Writes(Outcomes(seen, entries, entries, allowed))|
    ensures var w := Writes(Outcomes(seen, entries, entries, allowed))[a];
            var after := ImportManifest(seen, db, entries, allowed, allowPartial, now).value;
            LiveMappings(after.mappings, w.districtId) == [NewMapping(w, db.nextId + a, now)]
  {
    var rows := Outcomes(seen, entries, entries, allowed);
    assert rows[..|entries|] == rows;
    WritesInOrder(seen, entries, allowed, |entries|);
    WrittenHasNoneLive(seen, entries, allowed, a);
    CommittedRows(seen, db, Writes(rows), now);
    assert Writes(rows)[a] in Writes(rows);
    TargetHasOneLive(seen, db, Writes(rows), now, a);
  }

  // ------------------------------------------------------------- validating again

  /** What a row says once the accepted rows are written. */
  function Repeated(o: Outcome): Outcome {
    if o.Accept? then Noop(ALREADY_PENDING) else o
  }

  lemma {:induction false} PairAmongMore(rows: seq<Mapping>, more: seq<Mapping>, districtId: nat, locationId: nat)
    ensures PairOf(rows, districtId, locationId).Some? ==> PairOf(rows + more, districtId, locationId) == PairOf(rows, districtId, locationId)
    ensures PairOf(rows, districtId, locationId).None? ==> PairOf(rows + more, districtId, locationId) == PairOf(more, districtId, locationId)
  {
    if rows == [] {
      assert rows + more == more;
    } else {
      assert (rows + more)[1..] == rows[1..] + more;
      PairAmongMore(rows[1..], more, districtId, locationId);
    }
  }

  /** Mappings of other districts do not enter a decision. */
  lemma {:induction false} OtherDistrictsDoNotMatter(rows: seq<Mapping>, more: seq<Mapping>, e: ManifestEntry,
                                                     d: District, l: Location)
    requires forall m | m in more :: m.districtId != d.id
    ensures DecidePair(rows + more, e, d, l) == DecidePair(rows, e, d, l)
  {
    PairAmongMore(rows, more, d.id, l.id);
  }

  lemma {:induction false} AcceptedIsPending(rows: seq<Mapping>, more: seq<Mapping>, e: ManifestEntry, d: District,
                                             l: Location, mine: Mapping)
    requires DecidePair(rows, e, d, l).Accept?
    requires mine in more && mine.districtId == d.id && mine.locationId == l.id && mine.status == REVIEW_REQUIRED && mine.isActive
    requires forall m | m in more && m.districtId == d.id :: m == mine
    ensures DecidePair(rows + more, e, d, l) == Noop(ALREADY_PENDING)
  {
    PairAmongMore(rows, more, d.id, l.id);
    assert PairOf(more, d.id, l.id) == Some(mine);
  }

  lemma {:induction false} AcceptIsAWrite(rows: seq<Outcome>, i: nat)
    requires i < |rows| && rows[i].Accept?
    ensures exists a | 0 <= a < |Writes(rows)| :: Writes(rows)[a] == rows[i].write
  {
    assert Accept(rows[i].write) in rows;
    assert rows[i].write in Writes(rows);
  }

  /** Which of the written candidates concern the district of row `i`: its own, or none. */
  lemma {:induction false} WritesOfDistrict(db: Db, entries: seq<ManifestEntry>, allowed: set<Source>, i: nat,
                                            d: District, a: nat)
    requires DistrictKeys(db.districts) && i < |entries|
    requires Claims(entries[i], entries) && (entries[i].districtCode, entries[i].jneCode) !in SeenPairs(entries[..i], entries)
    requires DistrictByCode(db.districts, entries[i].districtCode) == Some(d)
    requires a < |Writes(Outcomes(db, entries, entries, allowed))|
    requires Writes(Outcomes(db, entries, entries, allowed))[a].districtId == d.id
    ensures Outcomes(db, entries, entries, allowed)[i] == Accept(Writes(Outcomes(db, entries, entries, allowed))[a])
  {
    var rows := Outcomes(db, entries, entries, allowed);
    WritesAreAccepted(rows, a);
    var j :| 0 <= j < |rows| && rows[j].Accept? && rows[j].write == Writes(rows)[a];
    AcceptedAt(db, entries, allowed, j);
    SameDistrict(db.districts, d, DistrictByCode(db.districts, entries[j].districtCode).value);
    if i < j {
      LaterRowsAreRefused(db, entries, allowed, i, j);
    } else if j < i {
      LaterRowsAreRefused(db, entries, allowed, j, i);
    }
  }

  lemma {:induction false} OnlyMine(writes: seq<CandidateWrite>, nextId: nat, now: int, a: nat)
    requires DistinctDistricts(writes) && a < |writes|
    ensures NewMappings(writes, nextId, now)[a] in NewMappings(writes, nextId, now)
    ensures forall m | m in NewMappings(writes, nextId, now) && m.districtId == writes[a].districtId :: m == NewMappings(writes, nextId, now)[a]
  {
  }

  /** A row that reached the stored mappings decides, after the write, as Repeated says. */
  lemma {:induction false} RepeatedPair(db: Db, entries: seq<ManifestEntry>, allowed: set<Source>, now: int, i: nat,
                                        d: District, l: Location)
    requires DistrictKeys(db.districts) && i < |entries|
    requires Claims(entries[i], entries) && (entries[i].districtCode, entries[i].jneCode) !in SeenPairs(entries[..i], entries)
    requires DistrictByCode(db.districts, entries[i].districtCode) == Some(d)
    requires Outcomes(db, entries, entries, allowed)[i] == DecidePair(db.mappings, entries[i], d, l)
    ensures var rows := Outcomes(db, entries, entries, allowed);
            DecidePair(db.mappings + NewMappings(Writes(rows), db.nextId, now), entries[i], d, l) == Repeated(rows[i])
  {
    var rows := Outcomes(db, entries, entries, allowed);
    if rows[i].Accept? {
      RepeatedAccept(db, entries, allowed, now, i, d, l);
    } else {
      NoWriteForDistrict(db, entries, allowed, now, i, d);
      OtherDistrictsDoNotMatter(db.mappings, NewMappings(Writes(rows), db.nextId, now), entries[i], d, l);
    }
  }

  lemma {:induction false} NoWriteForDistrict(db: Db, entries: seq<ManifestEntry>, allowed: set<Source>, now: int,
                                              i: nat, d: District)
    requires DistrictKeys(db.districts) && i < |entries|
    requires Claims(entries[i], entries) && (entries[i].districtCode, entries[i].jneCode) !in SeenPairs(entries[..i], entries)
    requires DistrictByCode(db.districts, entries[i].districtCode) == Some(d)
    requires !Outcomes(db, entries, entries, allowed)[i].Accept?
    ensures forall m | m in NewMappings(Writes(Outcomes(db, entries, entries, allowed)), db.nextId, now) :: m.districtId != d.id
  {
    var writes := Writes(Outcomes(db, entries, entries, allowed));
    var more := NewMappings(writes, db.nextId, now);
    forall m | m in more ensures m.districtId != d.id {
      var a :| 0 <= a < |more| && more[a] == m;
      if writes[a].districtId == d.id {
        WritesOfDistrict(db, entries, allowed, i, d, a);
      }
    }
  }

  lemma {:induction false} RepeatedAccept(db: Db, entries: seq<ManifestEntry>, allowed: set<Source>, now: int, i: nat,
                                          d: District, l: Location)
    requires DistrictKeys(db.districts) && i < |entries|
    requires Outcomes(db, entries, entries, allowed)[i] == DecidePair(db.mappings, entries[i], d, l)
    requires Outcomes(db, entries, entries, allowed)[i].Accept?
    ensures var rows := Outcomes(db, entries, entries, allowed);
            DecidePair(db.mappings + NewMappings(Writes(rows), db.nextId, now), entries[i], d, l) == Noop(ALREADY_PENDING)
  {
    var rows := Outcomes(db, entries, entries, allowed);
    var writes := Writes(rows);
    var more := NewMappings(writes, db.nextId, now);
    AcceptIsAWrite(rows, i);
    var a :| 0 <= a < |writes| && writes[a] == rows[i].write;
    assert DistinctDistricts(writes) by {
      assert rows[..|entries|] == rows;
      WritesInOrder(db, entries, allowed, |entries|);
    }
    OnlyMine(writes, db.nextId, now, a);
    AcceptedIsPending(db.mappings, more, entries[i], d, l, more[a]);
  }

  lemma {:induction false} RepeatedAt(db: Db, entries: seq<ManifestEntry>, allowed: set<Source>, now: int, i: nat)
    requires DistrictKeys(db.districts) && i < |entries|
    ensures var rows := Outcomes(db, entries, entries, allowed);
            Decide(WithCandidates(db, Writes(rows), now), entries[i], entries, SeenPairs(entries[..i], entries), allowed) == Repeated(rows[i])
  {
    var rows := Outcomes(db, entries, entries, allowed);
    var e := entries[i];
    OutcomeAt(db, entries, entries, allowed, i);
    var d, l := DistrictByCode(db.districts, e.districtCode), Existing(db.locations, DESTINATION, e.jneCode);
    assert WithCandidates(db, Writes(rows), now).mappings == db.mappings + NewMappings(Writes(rows), db.nextId, now);
    if Claims(e, entries) && (e.districtCode, e.jneCode) !in SeenPairs(entries[..i], entries)
       && d.Some? && d.value.isActive && d.value.cityActive && l.Some? && l.value.isActive && l.value.source in allowed {
      RepeatedPair(db, entries, allowed, now, i, d.value, l.value);
    }
  }

  lemma {:induction false} RepeatedPrefix(db: Db, entries: seq<ManifestEntry>, allowed: set<Source>, now: int, n: nat)
    requires DistrictKeys(db.districts) && n <= |entries|
    ensures var rows := Outcomes(db, entries, entries, allowed);
            Outcomes(WithCandidates(db, Writes(rows), now), entries[..n], entries, allowed) ==
            RepeatedRows(rows, n)
  {
    if n > 0 {
      RepeatedPrefix(db, entries, allowed, now, n - 1);
      assert entries[..n][..n - 1] == entries[..n - 1];
      RepeatedAt(db, entries, allowed, now, n - 1);
      RepeatedOneMore(Outcomes(db, entries, entries, allowed), n);
    }
  }

  function RepeatedRows(rows: seq<Outcome>, n: nat): seq<Outcome>
    requires n <= |rows|
  {
    seq(n, i requires 0 <= i < n => Repeated(rows[i]))
  }

  lemma {:induction false} RepeatedOneMore(rows: seq<Outcome>, n: nat)
    requires 0 < n <= |rows|
    ensures RepeatedRows(rows, n) == RepeatedRows(rows, n - 1) + [Repeated(rows[n - 1])]
  {
  }

  /** Validating the same manifest against the written state: every ACCEPT is now ALREADY_PENDING, nothing else moves. */
  lemma {:induction false} RevalidationIsANoop(db: Db, entries: seq<ManifestEntry>, allowed: set<Source>, now: int)
    requires DistrictKeys(db.districts)
    ensures var rows := Outcomes(db, entries, entries, allowed);
            var again := Outcomes(WithCandidates(db, Writes(rows), now), entries, entries, allowed);
            && |again| == |rows|
            && (forall i | 0 <= i < |rows| :: again[i] == Repeated(rows[i]))
            && Writes(again) == []
  {
    assert entries[..|entries|] == entries;
    RepeatedPrefix(db, entries, allowed, now, |entries|);
    var again := Outcomes(WithCandidates(db, Writes(Outcomes(db, entries, entries, allowed)), now), entries, entries, allowed);
    if Writes(again) != [] {
      WritesAreAccepted(again, 0);
    }
  }

  // ------------------------------------------------------------- what is not re-checked

  predicate IsActiveIn(rows: seq<Location>, id: nat) {
    LocationById(rows, id).Some? && LocationById(rows, id).value.isActive
  }

  lemma {:induction false} AcceptedLocationIsActive(db: Db, e: ManifestEntry, w: CandidateWrite, allowed: set<Source>)
    requires WellFormed(db) && AcceptFacts(db, e, w, allowed)
    ensures IsActiveIn(db.locations, w.locationId)
  {
    var l := Existing(db.locations, DESTINATION, e.jneCode).value;
    var i :| 0 <= i < |db.locations| && db.locations[i] == l;
    FoundById(db.locations, i);
  }

  /** Every location a manifest is to write was active when the manifest was validated. */
  lemma {:induction false} WrittenLocationWasActive(seen: Db, entries: seq<ManifestEntry>, allowed: set<Source>, a: nat)
    requires WellFormed(seen) && a < |Writes(Outcomes(seen, entries, entries, allowed))|
    ensures IsActiveIn(seen.locations, Writes(Outcomes(seen, entries, entries, allowed))[a].locationId)
  {
    var rows := Outcomes(seen, entries, entries, allowed);
    WritesAreAccepted(rows, a);
    var i :| 0 <= i < |rows| && rows[i].Accept? && rows[i].write == Writes(rows)[a];
    AcceptedAt(seen, entries, allowed, i);
    AcceptedLocationIsActive(seen, entries[i], Writes(rows)[a], allowed);
  }

  /**
   * The transaction compares mappings, not locations. The candidates of a committed import are all on active
   * locations exactly when each location written is still active at the commit.
   */
  lemma {:induction false} CandidatesOnActiveLocationsExactly(seen: Db, db: Db, entries: seq<ManifestEntry>,
                                                              allowed: set<Source>, allowPartial: bool, now: int)
    requires ImportManifest(seen, db, entries, allowed, allowPartial, now).Some?
    ensures var writes := Writes(Outcomes(seen, entries, entries, allowed));
            var after := ImportManifest(seen, db, entries, allowed, allowPartial, now).value;
            && (forall m | m in NewMappings(writes, db.nextId, now) :: m in after.mappings && Live(m))
            && ((forall m | m in NewMappings(writes, db.nextId, now) :: IsActiveIn(after.locations, m.locationId))
                <==> forall w | w in writes :: IsActiveIn(db.locations, w.locationId))
  {
    var writes := Writes(Outcomes(seen, entries, entries, allowed));
    CommittedRows(seen, db, writes, now);
    CandidateLocations(writes, db.nextId, now);
  }

  lemma {:induction false} CandidateLocations(writes: seq<CandidateWrite>, nextId: nat, now: int)
    ensures forall w | w in writes :: exists m | m in NewMappings(writes, nextId, now) :: m.locationId == w.locationId
    ensures forall m | m in NewMappings(writes, nextId, now) :: Live(m) && exists w | w in writes :: m.locationId == w.locationId
  {
    var rows := NewMappings(writes, nextId, now);
    forall w | w in writes
      ensures exists m | m in rows :: m.locationId == w.locationId
    {
      var i :| 0 <= i < |writes| && writes[i] == w;
      assert rows[i] in rows;
    }
    forall m | m in rows
      ensures Live(m) && exists w | w in writes :: m.locationId == w.locationId
    {
      var i :| 0 <= i < |rows| && rows[i] == m;
      assert writes[i] in writes;
    }
  }
}
