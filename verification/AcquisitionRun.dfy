/**
 * The acquisition run as it executes: a transport it calls, a storage it writes, and the loops over units, pages and rows.
 * Each method is tied to the functions of the protocol. The storage keeps the history of its states, so that a run can be
 * said to pass through exactly the states that the specification lists.
 */
module AcquisitionRun {
  import opened Wrappers
  import opened Json
  import opened Acquisition
  import AcquisitionPages

  /** Issues the requests of one run; `answers` is the whole of what the outside will say. */
  class Transport {
    const answers: Transcript
    var requests: nat

    constructor (answers: Transcript)
      ensures this.answers == answers && requests == 0
    {
      this.answers := answers;
      requests := 0;
    }

    method Send(r: Request) returns (answer: Answer)
      modifies this
      ensures answer == answers(old(requests), r)
      ensures requests == old(requests) + 1
    {
      answer := answers(requests, r);
      requests := requests + 1;
    }
  }

  /** Checkpoint and artifacts on disk. Each write is atomic; `history` is every state since creation. */
  class Storage {
    var checkpoint: Option<Json>
    var raw: map<string, Json>
    ghost var history: seq<Disk>

    ghost function State(): Disk
      reads this
    {
      Disk(checkpoint, raw)
    }

    ghost predicate Valid()
      reads this
    {
      history != [] && history[|history| - 1] == State()
    }

    constructor (d: Disk)
      ensures Valid() && State() == d && history == [d]
    {
      checkpoint, raw, history := d.checkpoint, d.raw, [d];
    }

    method WriteCheckpoint(c: Checkpoint)
      requires Valid()
      modifies this
      ensures Valid() && State() == old(State()).(checkpoint := Some(CheckpointJson(c)))
      ensures history == old(history) + [State()]
    {
      checkpoint := Some(CheckpointJson(c));
      history := history + [State()];
    }

    method WriteRaw(unitKey: string, body: Json)
      requires Valid()
      modifies this
      ensures Valid() && State() == old(State()).(raw := old(raw)[unitKey := body])
      ensures history == old(history) + [State()]
    {
      raw := raw[unitKey := body];
      history := history + [State()];
    }
  }

  /** Appends the rows whose id was not seen before. */
  method AppendNew(rows: seq<Json>, seen: set<real>, page: seq<Json>) returns (rows': seq<Json>, seen': set<real>)
    requires AllHaveIds(page)
    ensures rows' == rows + Dedup(page, seen)
    ensures seen' == seen + Ids(page)
  {
    rows', seen' := rows, seen;
    for i := 0 to |page|
      invariant rows' + Dedup(page[i..], seen') == rows + Dedup(page, seen)
      invariant seen' == seen + Ids(page[..i])
    {
      var row := page[i];
      DedupNext(page, i, seen');
      IdsUpTo(page, i);
      if RowId(row) !in seen' {
        assert rows' + ([row] + Dedup(page[i + 1..], seen' + {RowId(row)})) == rows' + [row] + Dedup(page[i + 1..], seen' + {RowId(row)});
        rows', seen' := rows' + [row], seen' + {RowId(row)};
      }
    }
    assert page[..|page|] == page;
  }

  lemma {:induction false} DedupNext(page: seq<Json>, i: nat, seen: set<real>)
    requires AllHaveIds(page) && i < |page|
    ensures AllHaveIds(page[i + 1..])
    ensures Dedup(page[i..], seen)
         == if RowId(page[i]) in seen then Dedup(page[i + 1..], seen)
            else [page[i]] + Dedup(page[i + 1..], seen + {RowId(page[i])})
  {
    assert page[i..][0] == page[i] && page[i..][1..] == page[i + 1..];
  }

  lemma {:induction false} IdsUpTo(page: seq<Json>, i: nat)
    requires AllHaveIds(page) && i < |page|
    ensures Ids(page[..i + 1]) == Ids(page[..i]) + {RowId(page[i])}
  {
    assert page[..i + 1] == page[..i] + [page[i]];
  }

  /** A page recorded, and its new rows appended. */
  method RecordPage(pages: seq<PageRecord>, rows: seq<Json>, seen: set<real>, page: PageRecord)
    returns (pages': seq<PageRecord>, rows': seq<Json>, seen': set<real>)
    requires PagesHaveIds(pages) && AllHaveIds(page.rows) && rows == UnitRows(pages)
    requires AllHaveIds(AllRows(pages)) && seen == Ids(AllRows(pages))
    ensures pages' == pages + [page] && PagesHaveIds(pages') && rows' == UnitRows(pages')
    ensures AllHaveIds(AllRows(pages')) && seen' == Ids(AllRows(pages'))
  {
    AcquisitionPages.PageAddsRows(pages, page);
    pages' := pages + [page];
    rows', seen' := AppendNew(rows, seen, page.rows);
  }

  /** Requests page after page until a short one proves the unit exhausted, or the walk is stopped. */
  method WalkPages(transport: Transport, u: AcquisitionUnit, maxPages: int) returns (w: WalkResult, rows: seq<Json>)
    modifies transport
    ensures w == WalkUnit(transport.answers, u, maxPages, old(transport.requests))
    ensures transport.requests == w.requests
    ensures w.Exhausted? ==> rows == UnitRows(w.pages)
  {
    rows := [];
    var pages: seq<PageRecord> := [];
    var seen: set<real> := {};
    var offset := 0;
    ghost var whole := WalkUnit(transport.answers, u, maxPages, transport.requests);
    while true
      invariant PagesHaveIds(pages)
      invariant Walk(transport.answers, u, maxPages, transport.requests, offset, pages) == whole
      invariant rows == UnitRows(pages)
      invariant AllHaveIds(AllRows(pages)) && seen == Ids(AllRows(pages))
      decreases if maxPages > |pages| then maxPages - |pages| else 0
    {
      if |pages| >= maxPages {
        w := Halted(INCOMPLETE_RESULT_SET, None, transport.requests);
        return;
      }
      var answer := transport.Send(Request(u.searchTerm, u.limit, offset));
      match ReadAnswer(answer, u.limit)
      case Refused(category, httpStatus) =>
        w := Halted(category, httpStatus, transport.requests);
        return;
      case Page(pageRows, last) =>
        pages, rows, seen := RecordPage(pages, rows, seen, PageRecord(offset, pageRows));
        if last {
          w := Exhausted(pages, transport.requests);
          return;
        }
        offset := offset + u.limit;
    }
  }

  lemma {:induction false} AfterAfter(disks: seq<Disk>, acquired: seq<AcquiredUnit>, skipped: nat,
                   disks': seq<Disk>, acquired': seq<AcquiredUnit>, skipped': nat, t: Trace)
    ensures After(disks, acquired, skipped, After(disks', acquired', skipped', t)) ==
            After(disks + disks', acquired + acquired', skipped + skipped', t)
  {
    assert disks + (disks' + t.disks) == (disks + disks') + t.disks;
    assert acquired + (acquired' + t.acquired) == (acquired + acquired') + t.acquired;
  }

  /** Records the failure and leaves the completed units as they are. */
  method Stop(storage: Storage, u: AcquisitionUnit, w: WalkResult, now: string, c: Checkpoint)
    returns (checkpoint: Checkpoint)
    requires storage.Valid() && w.Halted?
    modifies storage
    ensures storage.Valid() && checkpoint == StoppedAt(u, w.category, w.httpStatus, now, c)
    ensures storage.State() == old(storage.State()).(checkpoint := Some(CheckpointJson(checkpoint)))
    ensures storage.history == old(storage.history) + [storage.State()]
  {
    checkpoint := StoppedAt(u, w.category, w.httpStatus, now, c);
    storage.WriteCheckpoint(checkpoint);
  }

  /** Stores the artifact of an exhausted unit, and only then lets the checkpoint claim the unit. */
  method Complete(storage: Storage, u: AcquisitionUnit, pages: seq<PageRecord>, rows: seq<Json>, now: string,
                  c: Checkpoint) returns (checkpoint: Checkpoint, unit: AcquiredUnit, ghost writes: seq<Disk>)
    requires storage.Valid() && PagesHaveIds(pages) && rows == UnitRows(pages)
    modifies storage
    ensures storage.Valid() && checkpoint == Claimed(u, now, c) && unit == Acquired(u, pages)
    ensures var stored := old(storage.State()).(raw := old(storage.raw)[u.key := ArtifactJson(u, pages, UnitRows(pages))]);
            && storage.State() == stored.(checkpoint := Some(CheckpointJson(checkpoint)))
            && writes == [stored, storage.State()]
    ensures storage.history == old(storage.history) + writes
  {
    storage.WriteRaw(u.key, ArtifactJson(u, pages, rows));
    ghost var stored := storage.State();
    checkpoint := Claimed(u, now, c);
    storage.WriteCheckpoint(checkpoint);
    unit := AcquiredUnit(u.key, u.searchTerm, u.limit as real, OffsetsJson(pages), rows);
    writes := [stored, storage.State()];
  }

  /** What is left of a run: nothing once it has stopped, otherwise the units from `i` on. */
  ghost function Remaining(stopped: bool, t: Transcript, units: seq<AcquisitionUnit>, i: nat, o: RunOptions,
                           done: set<string>, c: Checkpoint, d: Disk, k: nat): Trace
    requires i <= |units|
  {
    if stopped then Trace(true, c, k, 0, [], []) else RunUnits(t, units[i..], o, done, c, d, k)
  }

  /** The run `whole` has done this much and has `left` to do. */
  ghost predicate Progress(whole: Trace, writes: seq<Disk>, acquired: seq<AcquiredUnit>, skipped: nat, left: Trace) {
    whole == After(writes, acquired, skipped, left)
  }

  lemma {:induction false} MoreProgress(whole: Trace, writes: seq<Disk>, acquired: seq<AcquiredUnit>, skipped: nat,
                                        left: Trace, more: seq<Disk>, unit: seq<AcquiredUnit>, skip: nat, rest: Trace)
    requires Progress(whole, writes, acquired, skipped, left) && left == After(more, unit, skip, rest)
    ensures Progress(whole, writes + more, acquired + unit, skipped + skip, rest)
  {
    AfterAfter(writes, acquired, skipped, more, unit, skip, rest);
  }

  /** The turn of unit `i`: skipped, acquired, or the end of the run. */
  method TakeUnit(units: seq<AcquisitionUnit>, i: nat, transport: Transport, storage: Storage, o: RunOptions,
                  done: set<string>, c: Checkpoint)
    returns (stopped: bool, checkpoint: Checkpoint, skipped: nat, acquired: seq<AcquiredUnit>, ghost writes: seq<Disk>)
    requires storage.Valid() && i < |units|
    modifies transport, storage
    ensures storage.Valid() && storage.history == old(storage.history) + writes
    ensures Remaining(false, transport.answers, units, i, o, done, c, old(storage.State()), old(transport.requests)) ==
            After(writes, acquired, skipped,
                  Remaining(stopped, transport.answers, units, i + 1, o, done, checkpoint, storage.State(), transport.requests))
  {
    var u := units[i];
    NextUnit(transport.answers, units, o, done, c, storage.State(), transport.requests, i);
    stopped, checkpoint, skipped, acquired, writes := false, c, 0, [], [];
    if u.key in done {
      skipped := 1;
      return;
    }
    var w, rows := WalkPages(transport, u, o.maxPages);
    if w.Halted? {
      checkpoint := Stop(storage, u, w, o.now, c);
      stopped, writes := true, [storage.State()];
    } else {
      var unit;
      checkpoint, unit, writes := Complete(storage, u, w.pages, rows, o.now, c);
      acquired := [unit];
    }
  }

  /** The unit loop, up to the end of the plan or the first failure. */
  method TakeUnits(units: seq<AcquisitionUnit>, transport: Transport, storage: Storage, o: RunOptions,
                   done: set<string>, c: Checkpoint)
    returns (stopped: bool, checkpoint: Checkpoint, unitsSkipped: nat, acquired: seq<AcquiredUnit>, ghost writes: seq<Disk>)
    requires storage.Valid()
    modifies transport, storage
    ensures storage.Valid() && storage.history == old(storage.history) + writes
    ensures RunUnits(transport.answers, units, o, done, c, old(storage.State()), old(transport.requests))
         == Trace(stopped, checkpoint, transport.requests, unitsSkipped, acquired, writes)
  {
    checkpoint, stopped, unitsSkipped, acquired, writes := c, false, 0, [], [];
    ghost var whole := RunUnits(transport.answers, units, o, done, c, storage.State(), transport.requests);
    assert units[0..] == units;
    var i := 0;
    while i < |units| && !stopped
      invariant i <= |units|
      invariant storage.Valid() && storage.history == old(storage.history) + writes
      invariant Progress(whole, writes, acquired, unitsSkipped,
                         Remaining(stopped, transport.answers, units, i, o, done, checkpoint, storage.State(), transport.requests))
    {
      ghost var left := Remaining(stopped, transport.answers, units, i, o, done, checkpoint, storage.State(), transport.requests);
      ghost var more;
      var skip, unit;
      stopped, checkpoint, skip, unit, more := TakeUnit(units, i, transport, storage, o, done, checkpoint);
      i := i + 1;
      MoreProgress(whole, writes, acquired, unitsSkipped, left, more, unit, skip,
                   Remaining(stopped, transport.answers, units, i, o, done, checkpoint, storage.State(), transport.requests));
      acquired, unitsSkipped, writes := acquired + unit, unitsSkipped + skip, writes + more;
    }
    assert !stopped ==> units[i..] == [];
    assert writes + [] == writes && acquired + [] == acquired;
  }

  /** Every storage state the run passes through, and its result, are those of Run. */
  method RunPaginatedAcquisition(units: seq<AcquisitionUnit>, transport: Transport, storage: Storage, o: RunOptions)
    returns (stopped: bool, checkpoint: Checkpoint, unitsCompleted: nat, unitsSkipped: nat, acquired: seq<AcquiredUnit>)
    requires transport.requests == 0 && storage.Valid()
    modifies transport, storage
    ensures storage.Valid()
    ensures unitsCompleted == |acquired|
    ensures exists writes ::
              && storage.history == old(storage.history) + writes
              && Run(transport.answers, units, o, old(storage.State())) ==
                 Trace(stopped, checkpoint, transport.requests, unitsSkipped, acquired, writes)
  {
    var loaded := LoadCheckpoint(storage.checkpoint);
    var start := if loaded.Some? then loaded.value else Checkpoint(o.acquisitionId, [], None, o.now);
    ghost var writes;
    stopped, checkpoint, unitsSkipped, acquired, writes :=
      TakeUnits(units, transport, storage, o, KeySet(start.completedUnits), start);
    unitsCompleted := |acquired|;
  }

  /** Rebuilds one unit from its artifact, refusing anything that is not as written. */
  method ParseArtifact(key: string, raw: Json) returns (r: Option<AcquiredUnit>)
    ensures r == ReadArtifact(key, raw)
  {
    if !IsObject(raw) || TextField(raw, "searchTerm").None? || NumberField(raw, "limit").None?
       || ListField(raw, "offsets").None? || ListField(raw, "pages").None? {
      return None;
    }
    var pages := ListField(raw, "pages").value;
    var rows: seq<Json> := [];
    var seen: set<real> := {};
    for i := 0 to |pages|
      invariant forall p | p in pages[..i] :: PageIsUsable(p)
      invariant PagesHaveIds(PagesOf(pages[..i])) && AllHaveIds(AllRows(PagesOf(pages[..i])))
      invariant rows == UnitRows(PagesOf(pages[..i]))
      invariant seen == Ids(AllRows(PagesOf(pages[..i])))
    {
      if !PageIsUsable(pages[i]) {
        assert pages[i] in pages;
        return None;
      }
      ghost var before := PagesOf(pages[..i]);
      assert pages[..i + 1] == pages[..i] + [pages[i]];
      var pageRows := PageRows(pages[i]);
      assert PagesOf(pages[..i + 1]) == before + [PageRecord(0, pageRows)];
      AcquisitionPages.PageAddsRows(before, PageRecord(0, pageRows));
      rows, seen := AppendNew(rows, seen, pageRows);
    }
    assert pages[..|pages|] == pages;
    r := Some(AcquiredUnit(key, TextField(raw, "searchTerm").value, NumberField(raw, "limit").value,
                           Field(raw, "offsets").value, rows));
  }

  function Prepend(units: seq<AcquiredUnit>,
                   r: Result<seq<AcquiredUnit>, ArtifactError>): Result<seq<AcquiredUnit>, ArtifactError> {
    match r case Failure(e) => Failure(e) case Success(rest) => Success(units + rest)
  }

  lemma {:induction false} PrependPrepend(a: seq<AcquiredUnit>, b: seq<AcquiredUnit>,
                                          r: Result<seq<AcquiredUnit>, ArtifactError>)
    ensures Prepend(a, Prepend(b, r)) == Prepend(a + b, r)
  {
    if r.Success? {
      assert a + (b + r.value) == (a + b) + r.value;
    }
  }

  /** Reads back every unit the checkpoint claims; the first missing or unusable artifact fails. */
  method ReconstructAcquiredUnits(storage: Storage, keys: seq<string>)
    returns (r: Result<seq<AcquiredUnit>, ArtifactError>)
    ensures r == Reconstruct(storage.raw, keys)
  {
    var units: seq<AcquiredUnit> := [];
    assert keys[0..] == keys;
    assert Reconstruct(storage.raw, keys).Success? ==> [] + Reconstruct(storage.raw, keys).value == Reconstruct(storage.raw, keys).value;
    for i := 0 to |keys|
      invariant Reconstruct(storage.raw, keys) == Prepend(units, Reconstruct(storage.raw, keys[i..]))
    {
      assert keys[i..][0] == keys[i] && keys[i..][1..] == keys[i + 1..];
      if keys[i] !in storage.raw {
        return Failure(MissingArtifact(keys[i]));
      }
      var u := ParseArtifact(keys[i], storage.raw[keys[i]]);
      if u.None? {
        return Failure(CorruptArtifact(keys[i]));
      }
      PrependPrepend(units, [u.value], Reconstruct(storage.raw, keys[i + 1..]));
      units := units + [u.value];
    }
    assert keys[|keys|..] == [];
    r := Success(units);
    assert units + [] == units;
  }

  /** Flattens the units into the candidate pool, keeping the first row of every id. */
  method PoolFrom(acquired: seq<AcquiredUnit>) returns (pool: seq<Destination>)
    requires AllUnitsHaveIds(acquired)
    ensures pool == Pool(acquired)
  {
    var rows: seq<Json> := [];
    var seen: set<real> := {};
    for i := 0 to |acquired|
      invariant rows == Dedup(UnitRowsInOrder(acquired[..i]), {})
      invariant seen == Ids(UnitRowsInOrder(acquired[..i]))
    {
      ghost var before := UnitRowsInOrder(acquired[..i]);
      assert acquired[..i + 1][..i] == acquired[..i];
      assert UnitRowsInOrder(acquired[..i + 1]) == before + acquired[i].rows;
      AcquisitionPages.DedupAppend(before, acquired[i].rows, {});
      assert {} + Ids(before) == Ids(before);
      assert Ids(before + acquired[i].rows) == Ids(before) + Ids(acquired[i].rows);
      rows, seen := AppendNew(rows, seen, acquired[i].rows);
    }
    assert acquired[..|acquired|] == acquired;
    pool := ToDestinations(rows);
  }
}
