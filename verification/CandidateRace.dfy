/** A manifest import that commits after its location was switched off. */
module CandidateRace {
  // A manifest import that commits after its location was switched off: one code is validated for one
  // district, the code is deactivated as missing from a snapshot, and then the import commits.

  import opened Wrappers
  import opened JneMaster
  import opened JneDatabase
  import opened MasterPlan
  import opened MasterPlanFacts
  import opened MasterRun
  import opened Manifest
  import opened ManifestProofs
  import opened Lifecycle
  import Text

  const CODE := "AAA00001"
  const DISTRICT := "11.01.01"

  function Row(isActive: bool, updatedAt: int): Location {
    Location(0, CODE, DESTINATION, SANDBOX, "PLACE", isActive, 0, DerivedName("place", "place", None, 1), 0, updatedAt)
  }

  function Tables(isActive: bool, updatedAt: int): Db {
    Db([Row(isActive, updatedAt)], [], [District(1, DISTRICT, "District", true, true)], 2)
  }

  /** A snapshot that lists no importable row. */
  const SNAPSHOT := Request(DESTINATION, SANDBOX, "sha", Some(0), Inspection(1, 0, [], map[], [], ["TEST"]), [], [], [], None, [],
                            Target(None, None, None), Expectations(None, None, None, None), false)

  const SWITCH_OFF := Deactivation([CODE], Some(1), "no longer served", "operator")

  const ENTRY := ManifestEntry(0, DISTRICT, CODE, "HIGH", "dataset", "version", "evidence", "the only code for this district")

  lemma {:induction false} MissingOnTables()
    ensures MissingOf([Row(true, 0)], SNAPSHOT, []) == [Missing(0, CODE, SANDBOX, "PLACE", true, 0, 0)]
  {
    assert [Row(true, 0)][..0] == [];
    assert MissingOf([], SNAPSHOT, []) == [];
    assert Excluded(SNAPSHOT.inspection) == {"TEST"} && |"TEST"| != |CODE|;
    assert IsMissing(Row(true, 0), SNAPSHOT);
  }

  lemma {:induction false} NoBlockers(missing: seq<Missing>, hash: PlanIdentity)
    ensures Blockers(SNAPSHOT, MasterState([Row(true, 0)], []), [], missing, 0, hash) == []
  {
    var state := MasterState([Row(true, 0)], []);
    BlockerFree(SNAPSHOT, state, [], missing, 0, hash);
    assert AckMap([]) == map[];
    assert AckBlocks(ScanAcks([], SNAPSHOT, missing)) == [];
    assert SnapshotBlocks(SNAPSHOT) == [];
    assert ProvenanceBlocks(SNAPSHOT) == [];
    assert StateBlocks(state.existing, SNAPSHOT) == [];
  }

  lemma {:induction false} PlanOnTables()
    ensures var p := PlanMaster(SNAPSHOT, ReadMasterState(Tables(true, 0)));
            && p.blockers == [] && p.created == [] && p.updated == []
            && p.missing == [Missing(0, CODE, SANDBOX, "PLACE", true, 0, 0)]
            && p.protectedFingerprint == multiset{}
  {
    assert ReadMasterState(Tables(true, 0)) == MasterState([Row(true, 0)], []);
    MissingOnTables();
    NoBlockers([Missing(0, CODE, SANDBOX, "PLACE", true, 0, 0)], PlanMaster(SNAPSHOT, ReadMasterState(Tables(true, 0))).planSha256);
    assert [Row(true, 0)][..0] == [];
  }

  lemma {:induction false} TablesAreSafe(isActive: bool, updatedAt: int)
    ensures Safe(Tables(isActive, updatedAt))
  {
  }

  lemma {:induction false} NothingRefused(p: Plan)
    requires p.blockers == [] && p.created == [] && p.updated == [] && p.missing == [Missing(0, CODE, SANDBOX, "PLACE", true, 0, 0)]
    ensures Refusals(p, SWITCH_OFF) == [] && TargetIds(p.missing, SWITCH_OFF.codes) == {0}
  {
    assert [CODE][..0] == [] && CodeRefusals([], p.missing) == [];
    assert p.missing[0].code in SWITCH_OFF.codes;
    assert Text.Trim("operator")[0] == 'o';
  }

  lemma {:induction false} OneRowSwitchedOff()
    ensures DeactivateRows([Row(true, 0)], {0}, DESTINATION, 1) == [Row(false, 1)]
    ensures CountDeactivated([Row(true, 0)], {0}, DESTINATION) == 1
    ensures Protected([Row(false, 1)], DESTINATION) == []
  {
    assert [Row(true, 0)][..0] == [] && [Row(false, 1)][..0] == [];
  }

  /** The code is missing and unmapped, so it may be switched off. */
  lemma {:induction false} SwitchedOff()
    ensures IfDeactivated(Tables(true, 0), SNAPSHOT, SWITCH_OFF, PlanMaster(SNAPSHOT, ReadMasterState(Tables(true, 0))), 1) == Tables(false, 1)
  {
    PlanOnTables();
    NothingRefused(PlanMaster(SNAPSHOT, ReadMasterState(Tables(true, 0))));
    OneRowSwitchedOff();
  }

  lemma {:induction false} EntryIsAccepted()
    ensures Outcomes(Tables(true, 0), [ENTRY], [ENTRY], {SANDBOX}) == [Accept(CandidateWrite(1, 0, ENTRY))]
  {
    assert [ENTRY][..0] == [] && CodesOf([ENTRY], DISTRICT) == {CODE};
    assert SeenPairs([], [ENTRY]) == {};
    assert ShapeProblem(ENTRY).None?;
    assert Tables(true, 0).districts[..0] == [] && Tables(true, 0).locations[..0] == [];
  }

  lemma {:induction false} WriteOfEntry(db: Db)
    ensures Writes([Accept(CandidateWrite(1, 0, ENTRY))]) == [CandidateWrite(1, 0, ENTRY)]
  {
    assert [Accept(CandidateWrite(1, 0, ENTRY))][..0] == [];
  }

  /** The import validated on the active location commits on the inactive one. */
  lemma {:induction false} CommitsAllTheSame()
    ensures ImportManifest(Tables(true, 0), Tables(false, 1), [ENTRY], {SANDBOX}, false, 2)
         == Some(WithCandidates(Tables(false, 1), [CandidateWrite(1, 0, ENTRY)], 2))
  {
    EntryIsAccepted();
    WriteOfEntry(Tables(false, 1));
    assert CandidatesFit(Tables(false, 1), [CandidateWrite(1, 0, ENTRY)]);
  }

  const FIRST := Event(MissingDeactivation(SNAPSHOT, SWITCH_OFF), 0, 1)

  const SECOND := Event(ManifestImport([ENTRY], {SANDBOX}, false), 0, 2)

  function End(): Db {
    WithCandidates(Tables(false, 1), [CandidateWrite(1, 0, ENTRY)], 2)
  }

  lemma {:induction false} FirstLeads()
    ensures Leads(Tables(true, 0), Tables(true, 0), FIRST, Tables(false, 1))
  {
    TablesAreSafe(true, 0);
    SwitchedOff();
    DeactivationLeads(Tables(true, 0), FIRST, PlanMaster(SNAPSHOT, ReadMasterState(Tables(true, 0))));
  }

  lemma {:induction false} PlannedOnce(db: Db, tool: Tool, plan: Plan)
    requires WellFormed(db) && tool.MissingDeactivation? && plan == PlanMaster(tool.missingIn, ReadMasterState(db))
    ensures PlanOf(db, tool) == Some(plan)
  {
  }

  lemma {:induction false} DeactivationLeads(db: Db, e: Event, plan: Plan)
    requires WellFormed(db) && e.tool.MissingDeactivation? && plan == PlanMaster(e.tool.missingIn, ReadMasterState(db))
    ensures Leads(db, db, e, IfDeactivated(db, e.tool.missingIn, e.tool.deactivation, plan, e.now))
  {
    PlannedOnce(db, e.tool, plan);
    MissingDeactivationStep(db, db, e, plan, plan);
  }

  lemma {:induction false} ImportLeads(seen: Db, db: Db, e: Event, after: Db)
    requires e.tool.ManifestImport?
    requires ImportManifest(seen, db, e.tool.entries, e.tool.allowed, e.tool.allowPartial, e.now) == Some(after)
    ensures Leads(seen, db, e, after)
  {
  }

  lemma {:induction false} TwoRuns(a: Db, b: Db, c: Db, first: Event, second: Event)
    requires Safe(a) && first.seen == 0 && second.seen == 0 && ValidTool(first.tool) && ValidTool(second.tool)
    requires Leads(a, a, first, b) && Leads(a, b, second, c)
    ensures IsHistory([a, b, c], [first, second]) && Safe(c)
  {
    var h, events := [a, b, c], [first, second];
    IsTwoRuns(a, b, c, first, second);
    EveryInterleavingIsSafe(h, events, 0, 2);
    KeptIsSafe(h[0], h[2]);
  }

  lemma {:induction false} IsTwoRuns(a: Db, b: Db, c: Db, first: Event, second: Event)
    requires first.seen == 0 && second.seen == 0 && ValidTool(first.tool) && ValidTool(second.tool)
    requires Leads(a, a, first, b) && Leads(a, b, second, c)
    ensures IsHistory([a, b, c], [first, second])
  {
    var h, events := [a, b, c], [first, second];
    assert Follows(h, events, 0);
    assert Follows(h, events, 1);
  }

  lemma {:induction false} KeptIsSafe(db: Db, after: Db)
    requires Kept(db, after)
    ensures Safe(after)
  {
  }

  lemma {:induction false} EndIsInactive()
    ensures exists m | m in End().mappings ::
              Live(m) && IsActiveIn(Tables(true, 0).locations, m.locationId) && !IsActiveIn(End().locations, m.locationId)
  {
    assert End().mappings == [NewMapping(CandidateWrite(1, 0, ENTRY), 2, 2)];
    assert End().mappings[0] in End().mappings;
  }

  /**
   * A history of two runs, both safe: at its end the new candidate is live on a location that was active when the
   * import validated it and is inactive now.
   */
  lemma {:induction false} CandidateOnInactiveLocation() returns (h: seq<Db>, events: seq<Event>)
    ensures IsHistory(h, events) && |h| == 3 && Safe(h[0]) && Safe(h[2])
    ensures events[0].tool.MissingDeactivation? && events[1].tool.ManifestImport? && events[1].seen == 0
    ensures exists m | m in h[2].mappings ::
              Live(m) && IsActiveIn(h[0].locations, m.locationId) && !IsActiveIn(h[2].locations, m.locationId)
  {
    h, events := [Tables(true, 0), Tables(false, 1), End()], [FIRST, SECOND];
    TablesAreSafe(true, 0);
    FirstLeads();
    CommitsAllTheSame();
    ImportLeads(Tables(true, 0), Tables(false, 1), SECOND, End());
    TwoRuns(Tables(true, 0), Tables(false, 1), End(), FIRST, SECOND);
    EndIsInactive();
  }
}
