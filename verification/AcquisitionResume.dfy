/** Crash and resume: the same pool as an uninterrupted run. */
module AcquisitionResume {
  // Crash and resume: however often a run fails or dies between two storage writes, the run that
  // finally completes yields the pool an uninterrupted run yields.

  import opened Wrappers
  import opened Json
  import opened Acquisition
  import opened AcquisitionPages

  // ------------------------------------------------------------- storage round trips

  lemma {:induction false} CheckpointRoundTrip(c: Checkpoint)
    ensures LoadCheckpoint(Some(CheckpointJson(c))) == Some(c)
  {
    var items := ListField(CheckpointJson(c), "completedUnits").value;
    assert |items| == |c.completedUnits|;
    var loaded := LoadCheckpoint(Some(CheckpointJson(c)));
    assert loaded.Some?;
    assert loaded.value.completedUnits == c.completedUnits;
  }

  lemma {:induction false} AllRowsDependOnRows(a: seq<PageRecord>, b: seq<PageRecord>)
    requires |a| == |b| && forall i | 0 <= i < |a| :: a[i].rows == b[i].rows
    ensures AllRows(a) == AllRows(b)
  {
    if a != [] {
      AllRowsDependOnRows(a[..|a| - 1], b[..|b| - 1]);
    }
  }

  lemma {:induction false} ArtifactFields(u: AcquisitionUnit, pages: seq<PageRecord>, rows: seq<Json>)
    requires AllHaveIds(rows)
    ensures var raw := ArtifactJson(u, pages, rows);
            && raw.Obj?
            && TextField(raw, "searchTerm") == Some(u.searchTerm)
            && NumberField(raw, "limit") == Some(u.limit as real)
            && Field(raw, "offsets") == Some(OffsetsJson(pages))
            && ListField(raw, "pages") == Some(PagesJson(pages).items)
  {
  }

  lemma {:induction false} StoredPagesAreUsable(pages: seq<PageRecord>)
    requires PagesHaveIds(pages)
    ensures forall p | p in PagesJson(pages).items :: PageIsUsable(p)
    ensures AllRows(PagesOf(PagesJson(pages).items)) == AllRows(pages)
  {
    var items := PagesJson(pages).items;
    forall i | 0 <= i < |items|
      ensures PageIsUsable(items[i]) && PageRows(items[i]) == pages[i].rows
    {
      assert items[i] == PageJson(pages[i]);
      assert pages[i] in pages;
    }
    AllRowsDependOnRows(PagesOf(items), pages);
  }

  /** An artifact read back is the unit that was acquired: its offsets and its rows. */
  lemma {:induction false} ArtifactRoundTrip(u: AcquisitionUnit, pages: seq<PageRecord>)
    requires PagesHaveIds(pages)
    ensures ReadArtifact(u.key, ArtifactJson(u, pages, UnitRows(pages))) == Some(Acquired(u, pages))
  {
    ArtifactFields(u, pages, UnitRows(pages));
    StoredPagesAreUsable(pages);
  }

  // ------------------------------------------------------------- what every state keeps

  /** Units that share a key are one unit listed twice. */
  ghost predicate ValidPlan(units: seq<AcquisitionUnit>) {
    && (forall i | 0 <= i < |units| :: 1 <= units[i].limit)
    && (forall i, j | 0 <= i < |units| && 0 <= j < |units| :: units[i].key == units[j].key ==> units[i] == units[j])
  }

  ghost predicate KeysDiffer(units: seq<AcquisitionUnit>) {
    forall i, j | 0 <= i < j < |units| :: units[i].key != units[j].key
  }

  function Keys(units: seq<AcquisitionUnit>): seq<string> {
    seq(|units|, i requires 0 <= i < |units| => units[i].key)
  }

  /** The artifact of a unit walked to the end of the server's list. */
  ghost function FullArtifact(server: Server, u: AcquisitionUnit): Json
    requires Identified(server) && 1 <= u.limit
  {
    ChunksAreComplete(server(u.searchTerm), u.limit);
    var pages := Chunks(server(u.searchTerm), u.limit);
    ArtifactJson(u, pages, UnitRows(pages))
  }

  ghost predicate HasArtifact(server: Server, u: AcquisitionUnit, raw: map<string, Json>)
    requires Identified(server) && 1 <= u.limit
  {
    u.key in raw && raw[u.key] == FullArtifact(server, u)
  }

  /** `completed` names the units in plan order; only a unit whose key was named before may be left out. */
  ghost predicate Names(completed: seq<string>, units: seq<AcquisitionUnit>)
    decreases |units|
  {
    if units == [] then completed == []
    else
      var front, key := units[..|units| - 1], units[|units| - 1].key;
      || (completed != [] && completed[|completed| - 1] == key && Names(completed[..|completed| - 1], front))
      || (key in Keys(front) && Names(completed, front))
  }

  /** `completed` names the first `n` units of the plan, and each has its full artifact. */
  ghost predicate Backed(server: Server, units: seq<AcquisitionUnit>, completed: seq<string>, raw: map<string, Json>,
                         n: nat)
    requires Identified(server) && ValidPlan(units)
  {
    && n <= |units|
    && Names(completed, units[..n])
    && forall j | 0 <= j < n :: HasArtifact(server, units[j], raw)
  }

  ghost predicate Sound(server: Server, units: seq<AcquisitionUnit>, d: Disk)
    requires Identified(server) && ValidPlan(units)
  {
    var c := LoadCheckpoint(d.checkpoint);
    c.Some? ==> exists n: nat :: Backed(server, units, c.value.completedUnits, d.raw, n)
  }

  lemma {:induction false} NamesOneMore(completed: seq<string>, units: seq<AcquisitionUnit>, i: nat)
    requires i < |units| && Names(completed, units[..i])
    ensures Names(completed + [units[i].key], units[..i + 1])
    ensures units[i].key in Keys(units[..i]) ==> Names(completed, units[..i + 1])
  {
    assert units[..i + 1][..i] == units[..i];
    assert (completed + [units[i].key])[..|completed|] == completed;
  }

  lemma {:induction false} KeySetOneMore(keys: seq<string>, key: string)
    ensures KeySet(keys + [key]) == KeySet(keys) + {key}
  {
  }

  lemma {:induction false} NamesTheKeys(completed: seq<string>, units: seq<AcquisitionUnit>)
    requires Names(completed, units)
    ensures KeySet(completed) == KeySet(Keys(units))
    decreases |units|
  {
    if units != [] {
      var last := |units| - 1;
      var front, key := units[..last], units[last].key;
      assert Keys(units) == Keys(front) + [key];
      KeySetOneMore(Keys(front), key);
      if key in Keys(front) && Names(completed, front) {
        NamesTheKeys(completed, front);
      } else {
        NamesTheKeys(completed[..|completed| - 1], front);
        assert completed == completed[..|completed| - 1] + [key];
        KeySetOneMore(completed[..|completed| - 1], key);
      }
    }
  }

  /** Where keys differ, what is named is exactly the plan. */
  lemma {:induction false} NamesAll(completed: seq<string>, units: seq<AcquisitionUnit>)
    requires Names(completed, units) && KeysDiffer(units)
    ensures completed == Keys(units)
    decreases |units|
  {
    if units != [] {
      var last := |units| - 1;
      var front, key := units[..last], units[last].key;
      assert key !in Keys(front) by {
        assert forall i | 0 <= i < last :: Keys(front)[i] == units[i].key;
      }
      NamesAll(completed[..|completed| - 1], front);
      assert completed == completed[..|completed| - 1] + [key];
    }
  }

  /** Where keys differ, a sound storage claims a prefix of the plan, every unit of it with its full artifact. */
  lemma {:induction false} ClaimsAreAPrefix(server: Server, units: seq<AcquisitionUnit>, d: Disk)
    requires Identified(server) && ValidPlan(units) && KeysDiffer(units)
    requires Sound(server, units, d) && LoadCheckpoint(d.checkpoint).Some?
    ensures var completed := LoadCheckpoint(d.checkpoint).value.completedUnits;
            && |completed| <= |units|
            && completed == Keys(units[..|completed|])
            && forall j | 0 <= j < |completed| :: HasArtifact(server, units[j], d.raw)
  {
    var completed := LoadCheckpoint(d.checkpoint).value.completedUnits;
    var n: nat :| Backed(server, units, completed, d.raw, n);
    NamesAll(completed, units[..n]);
  }

  /** The stored checkpoint, if there is one to resume, claims what `c` claims. */
  ghost predicate Stores(d: Disk, c: Checkpoint) {
    var stored := LoadCheckpoint(d.checkpoint);
    stored.Some? ==> stored.value.completedUnits == c.completedUnits
  }

  function LastDisk(d: Disk, disks: seq<Disk>): Disk {
    if disks == [] then d else disks[|disks| - 1]
  }

  /** Every state written on the way is sound, and a run that is not stopped has completed the plan. */
  ghost predicate SoundTrace(server: Server, units: seq<AcquisitionUnit>, d: Disk, r: Trace)
    requires Identified(server) && ValidPlan(units)
  {
    && (forall x | x in r.disks :: Sound(server, units, x))
    && (!r.stopped ==> Backed(server, units, r.checkpoint.completedUnits, LastDisk(d, r.disks).raw, |units|))
  }

  lemma {:induction false} StoringKeepsArtifacts(server: Server, units: seq<AcquisitionUnit>, raw: map<string, Json>,
                                                 n: nat, m: nat)
    requires Identified(server) && ValidPlan(units) && n <= |units| && m < |units|
    requires forall j | 0 <= j < n :: HasArtifact(server, units[j], raw)
    ensures forall j | 0 <= j < n :: HasArtifact(server, units[j], raw[units[m].key := FullArtifact(server, units[m])])
  {
    forall j | 0 <= j < n
      ensures HasArtifact(server, units[j], raw[units[m].key := FullArtifact(server, units[m])])
    {
      if units[j].key == units[m].key {
        assert units[j] == units[m];
      }
    }
  }

  lemma {:induction false} StoringKeepsBacked(server: Server, units: seq<AcquisitionUnit>, completed: seq<string>,
                                              raw: map<string, Json>, n: nat, m: nat, value: Json)
    requires Identified(server) && ValidPlan(units)
    requires Backed(server, units, completed, raw, n) && n <= m < |units| && value == FullArtifact(server, units[m])
    ensures Backed(server, units, completed, raw[units[m].key := value], n)
    ensures n == m ==> Backed(server, units, completed + [units[m].key], raw[units[m].key := value], n + 1)
  {
    StoringKeepsArtifacts(server, units, raw, n, m);
    if n == m {
      NamesOneMore(completed, units, n);
    }
  }

  /** A unit under a key named before is complete already. */
  lemma {:induction false} SkippingKeepsBacked(server: Server, units: seq<AcquisitionUnit>, completed: seq<string>,
                                               raw: map<string, Json>, i: nat)
    requires Identified(server) && ValidPlan(units) && i < |units|
    requires Backed(server, units, completed, raw, i) && units[i].key in Keys(units[..i])
    ensures Backed(server, units, completed, raw, i + 1)
  {
    NamesOneMore(completed, units, i);
    var j := NamedBefore(units, i);
    assert HasArtifact(server, units[j], raw);
  }

  /** A unit whose key is among the first `i` is one of them. */
  lemma {:induction false} NamedBefore(units: seq<AcquisitionUnit>, i: nat) returns (j: nat)
    requires ValidPlan(units) && i < |units| && units[i].key in Keys(units[..i])
    ensures j < i && units[j] == units[i]
  {
    j :| 0 <= j < i && Keys(units[..i])[j] == units[i].key;
    assert units[j].key == units[i].key;
  }

  /** The two writes that complete unit `i`: after each of them the storage is sound. */
  lemma {:induction false} CompletingAUnit(t: Transcript, server: Server, units: seq<AcquisitionUnit>, o: RunOptions,
                                           c: Checkpoint, d: Disk, k: nat, i: nat)
    requires Identified(server) && ValidPlan(units) && Honest(t, server)
    requires i < |units| && Backed(server, units, c.completedUnits, d.raw, i)
    requires Sound(server, units, d) && Stores(d, c)
    ensures var u := units[i];
            var w := WalkUnit(t, u, o.maxPages, k);
            w.Exhausted? ==>
              var stored := d.(raw := d.raw[u.key := ArtifactJson(u, w.pages, UnitRows(w.pages))]);
              var claimed := stored.(checkpoint := Some(CheckpointJson(Claimed(u, o.now, c))));
              && Sound(server, units, stored)
              && Sound(server, units, claimed)
              && Stores(claimed, Claimed(u, o.now, c))
              && Backed(server, units, Claimed(u, o.now, c).completedUnits, claimed.raw, i + 1)
  {
    var u := units[i];
    var w := WalkUnit(t, u, o.maxPages, k);
    if w.Exhausted? {
      CompletedWalk(t, server, u, o.maxPages, k);
      var stored := d.(raw := d.raw[u.key := FullArtifact(server, u)]);
      StoringKeepsBacked(server, units, c.completedUnits, d.raw, i, i, FullArtifact(server, u));
      StoringKeepsSound(server, units, d, i);
      StopIsSound(server, units, Claimed(u, o.now, c), stored.raw, i + 1);
    }
  }

  /** Storing a unit's artifact again, or for the first time, takes nothing from what is claimed. */
  lemma {:induction false} StoringKeepsSound(server: Server, units: seq<AcquisitionUnit>, d: Disk, i: nat)
    requires Identified(server) && ValidPlan(units) && i < |units| && Sound(server, units, d)
    ensures Sound(server, units, d.(raw := d.raw[units[i].key := FullArtifact(server, units[i])]))
  {
    if LoadCheckpoint(d.checkpoint).Some? {
      var completed := LoadCheckpoint(d.checkpoint).value.completedUnits;
      var raw := d.raw[units[i].key := FullArtifact(server, units[i])];
      var n: nat :| Backed(server, units, completed, d.raw, n);
      StoringKeepsArtifacts(server, units, d.raw, n, i);
      assert Backed(server, units, completed, raw, n);
    }
  }

  /** Before unit `i`: `n` units were complete when the run started, and nothing is lost since. */
  ghost predicate Running(server: Server, units: seq<AcquisitionUnit>, done: set<string>, c: Checkpoint, d: Disk,
                          i: nat, n: nat)
    requires Identified(server) && ValidPlan(units)
  {
    && i <= |units| && n <= |units| && done == KeySet(Keys(units[..n]))
    && Backed(server, units, c.completedUnits, d.raw, if i < n then n else i)
    && Sound(server, units, d)
    && Stores(d, c)
  }

  lemma {:induction false} RunningPastSkipped(server: Server, units: seq<AcquisitionUnit>, done: set<string>,
                                              c: Checkpoint, d: Disk, i: nat, n: nat)
    requires Identified(server) && ValidPlan(units) && Running(server, units, done, c, d, i, n)
    requires i < |units| && units[i].key in done
    ensures Running(server, units, done, c, d, i + 1, n)
  {
    DoneWhenNamed(units, n, i);
    if n <= i {
      SkippingKeepsBacked(server, units, c.completedUnits, d.raw, i);
    }
  }

  /** From unit `i` on, whatever happens. */
  lemma {:induction false} RunKeepsSound(t: Transcript, server: Server, units: seq<AcquisitionUnit>, o: RunOptions,
                                         done: set<string>, c: Checkpoint, d: Disk, k: nat, i: nat, n: nat)
    requires Identified(server) && ValidPlan(units) && Honest(t, server)
    requires Running(server, units, done, c, d, i, n)
    ensures SoundTrace(server, units, d, RunUnits(t, units[i..], o, done, c, d, k))
    decreases |units| - i, 2
  {
    if i == |units| {
      assert units[i..] == [];
    } else if units[i].key in done {
      SkippedUnit(t, server, units, o, done, c, d, k, i, n);
    } else {
      WalkedUnit(t, server, units, o, done, c, d, k, i, n);
    }
  }

  lemma {:induction false} SkippedUnit(t: Transcript, server: Server, units: seq<AcquisitionUnit>, o: RunOptions,
                                       done: set<string>, c: Checkpoint, d: Disk, k: nat, i: nat, n: nat)
    requires Identified(server) && ValidPlan(units) && Honest(t, server)
    requires Running(server, units, done, c, d, i, n)
    requires i < |units| && units[i].key in done
    ensures SoundTrace(server, units, d, RunUnits(t, units[i..], o, done, c, d, k))
    decreases |units| - i, 1
  {
    NextUnit(t, units, o, done, c, d, k, i);
    RunningPastSkipped(server, units, done, c, d, i, n);
    RunKeepsSound(t, server, units, o, done, c, d, k, i + 1, n);
    SoundWhenSkipped(server, units, d, RunUnits(t, units[i + 1..], o, done, c, d, k));
  }

  lemma {:induction false} WalkedUnit(t: Transcript, server: Server, units: seq<AcquisitionUnit>, o: RunOptions,
                                      done: set<string>, c: Checkpoint, d: Disk, k: nat, i: nat, n: nat)
    requires Identified(server) && ValidPlan(units) && Honest(t, server)
    requires Running(server, units, done, c, d, i, n)
    requires i < |units| && units[i].key !in done
    ensures SoundTrace(server, units, d, RunUnits(t, units[i..], o, done, c, d, k))
    decreases |units| - i, 1
  {
    NextUnit(t, units, o, done, c, d, k, i);
    DoneWhenNamed(units, n, i);
    var w := WalkUnit(t, units[i], o.maxPages, k);
    if w.Halted? {
      StopIsSound(server, units, StoppedAt(units[i], w.category, w.httpStatus, o.now, c), d.raw, i);
    } else {
      CompletedUnit(t, server, units, o, done, c, d, k, i, n);
    }
  }

  lemma {:induction false} CompletedUnit(t: Transcript, server: Server, units: seq<AcquisitionUnit>, o: RunOptions,
                                         done: set<string>, c: Checkpoint, d: Disk, k: nat, i: nat, n: nat)
    requires Identified(server) && ValidPlan(units) && Honest(t, server)
    requires Running(server, units, done, c, d, i, n)
    requires n <= i < |units| && units[i].key !in done && WalkUnit(t, units[i], o.maxPages, k).Exhausted?
    ensures SoundTrace(server, units, d, RunUnits(t, units[i..], o, done, c, d, k))
    decreases |units| - i, 0
  {
    var u := units[i];
    var w := WalkUnit(t, u, o.maxPages, k);
    NextUnit(t, units, o, done, c, d, k, i);
    CompletingAUnit(t, server, units, o, c, d, k, i);
    var stored := d.(raw := d.raw[u.key := ArtifactJson(u, w.pages, UnitRows(w.pages))]);
    var claim := Claimed(u, o.now, c);
    var claimed := stored.(checkpoint := Some(CheckpointJson(claim)));
    RunKeepsSound(t, server, units, o, done, claim, claimed, w.requests, i + 1, n);
    SoundWhenCompleted(server, units, d, stored, claimed, Acquired(u, w.pages),
                       RunUnits(t, units[i + 1..], o, done, claim, claimed, w.requests));
  }

  lemma {:induction false} SoundWhenSkipped(server: Server, units: seq<AcquisitionUnit>, d: Disk, rest: Trace)
    requires Identified(server) && ValidPlan(units) && SoundTrace(server, units, d, rest)
    ensures SoundTrace(server, units, d, After([], [], 1, rest))
  {
    assert [] + rest.disks == rest.disks;
  }

  lemma {:induction false} SoundWhenCompleted(server: Server, units: seq<AcquisitionUnit>, d: Disk, stored: Disk,
                                              claimed: Disk, acquired: AcquiredUnit, rest: Trace)
    requires Identified(server) && ValidPlan(units)
    requires Sound(server, units, stored) && Sound(server, units, claimed) && SoundTrace(server, units, claimed, rest)
    ensures SoundTrace(server, units, d, After([stored, claimed], [acquired], 0, rest))
  {
    assert LastDisk(d, [stored, claimed] + rest.disks) == LastDisk(claimed, rest.disks);
  }

  lemma {:induction false} DoneWhenNamed(units: seq<AcquisitionUnit>, n: nat, i: nat)
    requires i < |units| && n <= |units|
    ensures i < n ==> units[i].key in KeySet(Keys(units[..n]))
    ensures n <= i && units[i].key in KeySet(Keys(units[..n])) ==> units[i].key in Keys(units[..i])
  {
    if i < n {
      assert Keys(units[..n])[i] == units[i].key;
    } else if units[i].key in KeySet(Keys(units[..n])) {
      var j :| 0 <= j < n && Keys(units[..n])[j] == units[i].key;
      assert Keys(units[..i])[j] == units[i].key;
    }
  }

  lemma {:induction false} CompletedWalk(t: Transcript, server: Server, u: AcquisitionUnit, maxPages: int, k: nat)
    requires Identified(server) && Honest(t, server) && 1 <= u.limit
    ensures var w := WalkUnit(t, u, maxPages, k);
            w.Exhausted? ==> ArtifactJson(u, w.pages, UnitRows(w.pages)) == FullArtifact(server, u)
  {
    assert Chunks(server(u.searchTerm), u.limit)[..0] == [];
    HonestWalk(t, server, u, maxPages, k, 0);
  }

  lemma {:induction false} StopIsSound(server: Server, units: seq<AcquisitionUnit>, c: Checkpoint,
                                       raw: map<string, Json>, n: nat)
    requires Identified(server) && ValidPlan(units) && Backed(server, units, c.completedUnits, raw, n)
    ensures Sound(server, units, Disk(Some(CheckpointJson(c)), raw))
    ensures Stores(Disk(Some(CheckpointJson(c)), raw), c)
  {
    CheckpointRoundTrip(c);
  }

  lemma {:induction false} StartIsBacked(server: Server, units: seq<AcquisitionUnit>, o: RunOptions, d: Disk)
    returns (n: nat)
    requires Identified(server) && ValidPlan(units) && Sound(server, units, d)
    ensures n <= |units| && Backed(server, units, StartCheckpoint(o, d).completedUnits, d.raw, n)
  {
    n := 0;
    if LoadCheckpoint(d.checkpoint).Some? {
      n :| Backed(server, units, LoadCheckpoint(d.checkpoint).value.completedUnits, d.raw, n);
    }
  }

  /**
   * Every state a run can leave behind is sound, whatever the transport does and wherever the
   * run dies: the claims name a prefix of the plan and each unit of it has its full artifact.
   */
  lemma {:induction false} EveryCrashPointIsSound(t: Transcript, server: Server, units: seq<AcquisitionUnit>,
                                                  o: RunOptions, d: Disk)
    requires Identified(server) && ValidPlan(units) && Honest(t, server) && Sound(server, units, d)
    ensures forall x | x in CrashPoints(t, units, o, d) :: Sound(server, units, x)
    ensures var r := Run(t, units, o, d);
            !r.stopped ==> Backed(server, units, r.checkpoint.completedUnits, LastDisk(d, r.disks).raw, |units|)
  {
    var c := StartCheckpoint(o, d);
    assert units[0..] == units;
    var n := StartIsBacked(server, units, o, d);
    NamesTheKeys(c.completedUnits, units[..n]);
    RunKeepsSound(t, server, units, o, KeySet(c.completedUnits), c, d, 0, 0, n);
  }

  // ------------------------------------------------------------- the rebuilt pool

  ghost function ReferenceUnit(server: Server, u: AcquisitionUnit): AcquiredUnit
    requires Identified(server) && 1 <= u.limit
  {
    ChunksAreComplete(server(u.searchTerm), u.limit);
    Acquired(u, Chunks(server(u.searchTerm), u.limit))
  }

  ghost function ReferenceUnits(server: Server, units: seq<AcquisitionUnit>): (acquired: seq<AcquiredUnit>)
    requires Identified(server) && forall i | 0 <= i < |units| :: 1 <= units[i].limit
    ensures AllUnitsHaveIds(acquired)
  {
    seq(|units|, i requires 0 <= i < |units| => ReferenceUnit(server, units[i]))
  }

  lemma {:induction false} ReconstructAll(server: Server, units: seq<AcquisitionUnit>, raw: map<string, Json>)
    requires Identified(server) && forall i | 0 <= i < |units| :: 1 <= units[i].limit
    requires forall i | 0 <= i < |units| :: HasArtifact(server, units[i], raw)
    ensures Reconstruct(raw, Keys(units)) == Success(ReferenceUnits(server, units))
  {
    if units == [] {
      assert Keys(units) == [] && ReferenceUnits(server, units) == [];
    } else {
      var rest := units[1..];
      assert Keys(units)[0] == units[0].key && Keys(units)[1..] == Keys(rest);
      assert forall i | 0 <= i < |rest| :: rest[i] == units[i + 1];
      ReconstructAll(server, rest, raw);
      ReconstructFirst(server, units[0], raw);
      FirstReference(server, units);
    }
  }

  lemma {:induction false} ReconstructFirst(server: Server, u: AcquisitionUnit, raw: map<string, Json>)
    requires Identified(server) && 1 <= u.limit && HasArtifact(server, u, raw)
    ensures u.key in raw && ReadArtifact(u.key, raw[u.key]) == Some(ReferenceUnit(server, u))
  {
    ChunksAreComplete(server(u.searchTerm), u.limit);
    ArtifactRoundTrip(u, Chunks(server(u.searchTerm), u.limit));
  }

  lemma {:induction false} FirstReference(server: Server, units: seq<AcquisitionUnit>)
    requires Identified(server) && units != [] && forall i | 0 <= i < |units| :: 1 <= units[i].limit
    ensures forall i | 0 <= i < |units[1..]| :: 1 <= units[1..][i].limit
    ensures ReferenceUnits(server, units) == [ReferenceUnit(server, units[0])] + ReferenceUnits(server, units[1..])
  {
    assert forall i | 0 <= i < |units[1..]| :: units[1..][i] == units[i + 1];
  }

  /** Every row the server lists for the plan, unit after unit. */
  ghost function ServerRows(server: Server, units: seq<AcquisitionUnit>): (rows: seq<Json>)
    requires Identified(server)
    ensures AllHaveIds(rows)
  {
    if units == [] then [] else ServerRows(server, units[..|units| - 1]) + server(units[|units| - 1].searchTerm)
  }

  /** The pool by definition: one destination per id of everything the server lists, first one wins. */
  ghost function ReferencePool(server: Server, units: seq<AcquisitionUnit>): seq<Destination>
    requires Identified(server)
  {
    ToDestinations(Dedup(ServerRows(server, units), {}))
  }

  /** One more unit, whose own repeats are already gone, adds to the pool what its raw rows add. */
  lemma {:induction false} PoolGrows(before: seq<Json>, listed: seq<Json>, rows: seq<Json>)
    requires AllHaveIds(before) && AllHaveIds(listed) && AllHaveIds(rows)
    requires Dedup(before, {}) == Dedup(listed, {})
    ensures Dedup(before + Dedup(rows, {}), {}) == Dedup(listed + rows, {})
  {
    DedupIds(before, {});
    DedupIds(listed, {});
    assert Ids(before) == Ids(before) - {} == Ids(listed) - {} == Ids(listed);
    DedupAppend(before, Dedup(rows, {}), {});
    DedupAppend(listed, rows, {});
    DedupTwice(rows, {}, {} + Ids(before));
  }

  lemma {:induction false} PoolOfReference(server: Server, units: seq<AcquisitionUnit>)
    requires Identified(server) && forall i | 0 <= i < |units| :: 1 <= units[i].limit
    ensures Dedup(UnitRowsInOrder(ReferenceUnits(server, units)), {}) == Dedup(ServerRows(server, units), {})
  {
    if units != [] {
      var last := |units| - 1;
      var acquired := ReferenceUnits(server, units);
      assert acquired[..last] == ReferenceUnits(server, units[..last]);
      PoolOfReference(server, units[..last]);
      ChunksAreComplete(server(units[last].searchTerm), units[last].limit);
      assert acquired[last].rows == Dedup(server(units[last].searchTerm), {});
      PoolGrows(UnitRowsInOrder(acquired[..last]), ServerRows(server, units[..last]), server(units[last].searchTerm));
    }
  }

  lemma {:induction false} NothingKept(rows: seq<Json>, seen: set<real>)
    requires AllHaveIds(rows) && Ids(rows) <= seen
    ensures Dedup(rows, seen) == []
  {
    if rows != [] {
      IdsFromFirst(rows);
      NothingKept(rows[1..], seen);
    }
  }

  lemma {:induction false} NothingNew(listed: seq<Json>, rows: seq<Json>)
    requires AllHaveIds(listed) && AllHaveIds(rows) && Ids(rows) <= Ids(listed)
    ensures Dedup(listed + rows, {}) == Dedup(listed, {})
  {
    DedupAppend(listed, rows, {});
    NothingKept(rows, {} + Ids(listed));
  }

  lemma {:induction false} IdsOfPlan(server: Server, units: seq<AcquisitionUnit>, u: AcquisitionUnit)
    requires Identified(server) && u in units
    ensures Ids(server(u.searchTerm)) <= Ids(ServerRows(server, units))
  {
    var last := |units| - 1;
    assert units == units[..last] + [units[last]];
    if u != units[last] {
      IdsOfPlan(server, units[..last], u);
    }
  }

  /** These units of the plan have these keys, and list every id of the plan in the plan's order. */
  ghost predicate StandFor(server: Server, named: seq<AcquisitionUnit>, completed: seq<string>,
                           units: seq<AcquisitionUnit>)
    requires Identified(server)
  {
    && Keys(named) == completed
    && (forall u | u in named :: u in units)
    && Dedup(ServerRows(server, named), {}) == Dedup(ServerRows(server, units), {})
  }

  lemma {:induction false} StandForRepeated(server: Server, named: seq<AcquisitionUnit>, completed: seq<string>,
                                            front: seq<AcquisitionUnit>, u: AcquisitionUnit)
    requires Identified(server) && StandFor(server, named, completed, front) && u in front
    ensures StandFor(server, named, completed, front + [u])
  {
    assert (front + [u])[..|front|] == front;
    IdsOfPlan(server, front, u);
    NothingNew(ServerRows(server, front), server(u.searchTerm));
  }

  lemma {:induction false} StandForOneMore(server: Server, named: seq<AcquisitionUnit>, completed: seq<string>,
                                           front: seq<AcquisitionUnit>, u: AcquisitionUnit)
    requires Identified(server) && StandFor(server, named, completed, front)
    ensures StandFor(server, named + [u], completed + [u.key], front + [u])
  {
    assert (front + [u])[..|front|] == front && (named + [u])[..|named|] == named;
    assert Keys(named + [u]) == Keys(named) + [u.key];
    SameIdsSamePool(ServerRows(server, named), ServerRows(server, front), server(u.searchTerm));
  }

  /** A sequence of keys that names the plan is that of units that stand for it. */
  lemma {:induction false} NamedUnits(server: Server, completed: seq<string>, units: seq<AcquisitionUnit>)
      returns (named: seq<AcquisitionUnit>)
    requires Identified(server) && ValidPlan(units) && Names(completed, units)
    ensures StandFor(server, named, completed, units)
    decreases |units|
  {
    if units == [] {
      named := [];
    } else {
      var last := |units| - 1;
      var front, u := units[..last], units[last];
      assert units == front + [u];
      if u.key in Keys(front) && Names(completed, front) {
        named := NamedUnits(server, completed, front);
        SameUnit(units, u, front);
        StandForRepeated(server, named, completed, front, u);
      } else {
        var before := NamedUnits(server, completed[..|completed| - 1], front);
        StandForOneMore(server, before, completed[..|completed| - 1], front, u);
        assert completed == completed[..|completed| - 1] + [u.key];
        named := before + [u];
      }
    }
  }

  lemma {:induction false} SameUnit(units: seq<AcquisitionUnit>, u: AcquisitionUnit, front: seq<AcquisitionUnit>)
    requires ValidPlan(units) && units == front + [u] && u.key in Keys(front)
    ensures u in front
  {
    var i :| 0 <= i < |front| && Keys(front)[i] == u.key;
    assert units[i].key == units[|front|].key;
  }

  lemma {:induction false} SameIdsSamePool(before: seq<Json>, listed: seq<Json>, rows: seq<Json>)
    requires AllHaveIds(before) && AllHaveIds(listed) && AllHaveIds(rows)
    requires Dedup(before, {}) == Dedup(listed, {})
    ensures Dedup(before + rows, {}) == Dedup(listed + rows, {})
  {
    PoolGrows(before, before, rows);
    PoolGrows(before, listed, rows);
  }

  // ------------------------------------------------------------- the theorem

  /** One process: its transport, its options, and after how many storage writes it ended. */
  datatype Life = Life(t: Transcript, o: RunOptions, writes: nat)

  /** Process after process on the same storage, each on what the one before left. */
  ghost predicate Succession(server: Server, units: seq<AcquisitionUnit>, lives: seq<Life>, disks: seq<Disk>) {
    && |disks| == |lives| + 1
    && forall i | 0 <= i < |lives| ::
         && Honest(lives[i].t, server)
         && lives[i].writes < |CrashPoints(lives[i].t, units, lives[i].o, disks[i])|
         && disks[i + 1] == CrashPoints(lives[i].t, units, lives[i].o, disks[i])[lives[i].writes]
  }

  lemma {:induction false} SuccessionIsSound(server: Server, units: seq<AcquisitionUnit>, lives: seq<Life>,
                                             disks: seq<Disk>, i: nat)
    requires Identified(server) && ValidPlan(units)
    requires Succession(server, units, lives, disks) && Sound(server, units, disks[0])
    requires i < |disks|
    ensures Sound(server, units, disks[i])
  {
    if i > 0 {
      SuccessionIsSound(server, units, lives, disks, i - 1);
      var life := lives[i - 1];
      EveryCrashPointIsSound(life.t, server, units, life.o, disks[i - 1]);
      assert disks[i] in CrashPoints(life.t, units, life.o, disks[i - 1]);
    }
  }

  /** The pool a completed run maps from: its checkpoint's units, read back from its storage. */
  ghost predicate YieldsPool(r: Trace, d: Disk, pool: seq<Destination>) {
    var units := Reconstruct(LastDisk(d, r.disks).raw, r.checkpoint.completedUnits);
    units.Success? && Pool(units.value) == pool
  }

  /** Once the whole plan is claimed, what is claimed is the pool by definition. */
  lemma {:induction false} PoolOfClaims(server: Server, units: seq<AcquisitionUnit>, completed: seq<string>,
                                        raw: map<string, Json>)
    requires Identified(server) && ValidPlan(units) && Backed(server, units, completed, raw, |units|)
    ensures Reconstruct(raw, completed).Success?
    ensures Pool(Reconstruct(raw, completed).value) == ReferencePool(server, units)
  {
    assert units[..|units|] == units;
    var named := NamedUnits(server, completed, units);
    NamedAreBacked(server, units, named, raw);
    PoolOfNamed(server, named, raw);
  }

  lemma {:induction false} NamedAreBacked(server: Server, units: seq<AcquisitionUnit>, named: seq<AcquisitionUnit>,
                                          raw: map<string, Json>)
    requires Identified(server) && ValidPlan(units) && forall u | u in named :: u in units
    requires forall i | 0 <= i < |units| :: HasArtifact(server, units[i], raw)
    ensures forall i | 0 <= i < |named| :: 1 <= named[i].limit && HasArtifact(server, named[i], raw)
  {
    forall i | 0 <= i < |named|
      ensures 1 <= named[i].limit && HasArtifact(server, named[i], raw)
    {
      assert named[i] in named;
    }
  }

  lemma {:induction false} PoolOfNamed(server: Server, named: seq<AcquisitionUnit>, raw: map<string, Json>)
    requires Identified(server) && forall i | 0 <= i < |named| :: 1 <= named[i].limit
    requires forall i | 0 <= i < |named| :: HasArtifact(server, named[i], raw)
    ensures Reconstruct(raw, Keys(named)).Success?
    ensures Pool(Reconstruct(raw, Keys(named)).value) == ReferencePool(server, named)
  {
    ReconstructAll(server, named, raw);
    PoolOfReference(server, named);
  }

  /**
   * Any number of runs that fail or crash, then one that completes: the pool is the server's
   * rows of the whole plan without repeated ids, in plan order.
   */
  lemma {:induction false} CrashResume(server: Server, units: seq<AcquisitionUnit>, lives: seq<Life>, disks: seq<Disk>,
                                       t: Transcript, o: RunOptions)
    requires Identified(server) && ValidPlan(units)
    requires Succession(server, units, lives, disks) && LoadCheckpoint(disks[0].checkpoint) == None
    requires Honest(t, server) && !Run(t, units, o, disks[|lives|]).stopped
    ensures YieldsPool(Run(t, units, o, disks[|lives|]), disks[|lives|], ReferencePool(server, units))
    ensures KeysDiffer(units) ==> Run(t, units, o, disks[|lives|]).checkpoint.completedUnits == Keys(units)
  {
    var d := disks[|lives|];
    SuccessionIsSound(server, units, lives, disks, |lives|);
    EveryCrashPointIsSound(t, server, units, o, d);
    var r := Run(t, units, o, d);
    assert units[..|units|] == units;
    if KeysDiffer(units) {
      NamesAll(r.checkpoint.completedUnits, units);
    }
    PoolOfClaims(server, units, r.checkpoint.completedUnits, LastDisk(d, r.disks).raw);
  }

  /** The same pool, as a sequence, as one run on empty storage that nothing interrupts. */
  lemma {:induction false} CrashResumeEqualsOneRun(server: Server, units: seq<AcquisitionUnit>, lives: seq<Life>,
                                                   disks: seq<Disk>, t: Transcript, o: RunOptions, t1: Transcript,
                                                   o1: RunOptions)
    requires Identified(server) && ValidPlan(units)
    requires Succession(server, units, lives, disks) && LoadCheckpoint(disks[0].checkpoint) == None
    requires Honest(t, server) && !Run(t, units, o, disks[|lives|]).stopped
    requires Honest(t1, server) && !Run(t1, units, o1, Disk(None, map[])).stopped
    ensures forall pool :: YieldsPool(Run(t, units, o, disks[|lives|]), disks[|lives|], pool) <==>
                           YieldsPool(Run(t1, units, o1, Disk(None, map[])), Disk(None, map[]), pool)
  {
    CrashResume(server, units, lives, disks, t, o);
    CrashResume(server, units, [], [Disk(None, map[])], t1, o1);
  }
}
