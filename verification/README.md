# Verified model of the shop's data tools and codecs

This project models, in Dafny, the parts of the repository whose correctness is hard to see by reading: the tools that
acquire and import shipping master data, the tools that change district mappings, the CSV, Code 128 and shell-quoting
codecs, the region tree builder, the role sync and the admin account programs. Code that computes is modelled by
functions; code that updates state is modelled by classes and methods that are proved to do what those functions say.
The theorems are then about the functions. `dafny verify dfyconfig.toml` checks everything.

## What is proved

- **Acquisition** (`Acquisition*`). A paginated walk stores one artifact a unit and then a checkpoint. Storage is sound
  after every single write, so any number of failed or crashed runs followed by a completed one rebuild the same pool, as
  a sequence, as one uninterrupted run: for every server exactly when no two search terms of the plan share a key. A
  served unit completes exactly when its `n/L + 1` pages fit under the ceiling.
- **Master import** (`JneMaster`, `JneDatabase`, `Master*`). The planner partitions the seeds and blocks exactly on
  unmatched acknowledgments; the chunked writer reaches the state that the plan describes; the check before the commit
  accepts it, and accepts only states that keep everything else; a finished import is a fixpoint; only the reviewed plan
  is ever committed.
- **Mapping lifecycle** (`Manifest*`, `Mapping*`, `Lifecycle`, `CandidateRace`). Six tools, each deciding on an earlier
  state and committing on the latest: over every interleaving each district resolves to at most one code, and that code is
  active. The database's partial unique index on active MATCHED rows is not assumed. A commit changes exactly the rows it
  names, each in one known way.
- **CSV** (`Csv*`). A text parses to some rows exactly when it is a layout of those rows; what the writer writes reads
  back exactly under a stated condition on the header.
- **Code 128** (`Code128*`). Decoding inverts encoding in both directions; the check character catches every exchange of
  two characters whose distance 103 does not divide; the bars are the only ones that paint the symbol.
- **Regions** (`Region*`). The preorder of the emitted tree is the sorted code list; the tool succeeds exactly on a
  complete, prefix-closed, designated table.
- **Roles** (`Rbac*`). One sync reaches the catalogue exactly when no governed role holds a permission whose subject or
  action contains a dot or a colon.
- **Admin accounts** (`Admin*`). Every interleaving of bootstrap, creation and disabling, statement by statement and
  with crashes, keeps an active SUPER_ADMIN; without the lock one can be lost.
- **cURL export** (`Curl*`). The shell word of any parts expands to their texts and values; the cut-out credentials
  leave no trace and can be put back exactly when no key repeats with two values.

## Where the code and its promises differ

- The planner's slug can give two search terms one key. A run that dies between such units resumes without requesting the
  second, and its pool is right exactly when the second term lists no new id
  (`AcquisitionKeys.RepeatedKeyLosesRowsExactly`); a planned list resumes to the right pool for every server exactly when
  its keys tell its terms apart (`AcquisitionKeys.ResumesExactlyWhenKeysTellTermsApart`), and
  `AcquisitionKeys.TwoTermsUnderOneKey` is a plan, a server and a crash that lose a row.
- A manifest import compares mappings, not locations, before it commits: its candidates are all on active locations exactly
  when every location it writes is still active at the commit (`ManifestProofs.CandidatesOnActiveLocationsExactly`).
  `CandidateRace.CandidateOnInactiveLocation` is a history in which one is not. It is never MATCHED while inactive.
- `toCsv` promises that `parseCsv` reads back the same values. It does not for an empty header or for a header whose first
  name begins with a bare byte-order mark (`CsvRoundTrip.CsvRoundTrip` gives the exact condition).
- The sync promises to bring governed roles to exactly the matrix. A held permission such as subject `Order.read`, action
  `x` makes it remove `Order.read` instead (`RbacConverges.OddGrantCostsTheMatrixGrant`).
- The decoder of Code 128 also reads symbols that the encoder never writes (`Code128Proofs.DecodesMoreThanItEncodes`).
- A stored form that repeats a credential key with two values cannot be reproduced by any environment
  (`CurlProofs.CanBeReproducedExactly`).

## Model

| member | source | states |
|---|---|---|
| `AcquisitionPages.EmptySearchIsAShortPage` | backend/prisma/tools/rajaongkir-acquisition.ts:175-188 | the 404 answer of an empty search is read exactly as a 200 page without rows |
| `AcquisitionPages.DedupKeepsEachIdOnce` | backend/prisma/tools/rajaongkir-acquisition.ts:550-575 | the kept rows have distinct ids, one for every id listed and not seen before |
| `AcquisitionPages.ChunksAreComplete` | backend/prisma/tools/rajaongkir-acquisition.ts:516-577 | the pages recorded for a whole list hold all its rows in order |
| `AcquisitionPages.HonestWalk` | backend/prisma/tools/rajaongkir-acquisition.ts:516-577 | whatever fails on the way, a unit that completes recorded exactly the server's pages |
| `AcquisitionPages.UnitCompletesExactlyWhenItsPagesFit` | backend/prisma/tools/rajaongkir-acquisition.ts:503-597 | a served unit completes iff n/L + 1 pages fit the ceiling, with exactly that many requests at 0, L, 2L, ...; otherwise it stops as INCOMPLETE_RESULT_SET after exactly P requests |
| `AcquisitionResume.CheckpointRoundTrip` | backend/prisma/tools/rajaongkir-acquisition.ts:229-239 | a stored checkpoint is resumable and loads as what was stored |
| `AcquisitionResume.ArtifactRoundTrip` | backend/prisma/tools/rajaongkir-acquire.ts:124-151 | a stored artifact parses back to the unit's deduplicated rows |
| `AcquisitionResume.CompletingAUnit` | backend/prisma/tools/rajaongkir-acquisition.ts:582-597 | after the artifact write and after the checkpoint write storage is sound, and the unit is claimed only with its artifact there |
| `AcquisitionResume.EveryCrashPointIsSound` | backend/prisma/tools/rajaongkir-acquisition.ts:483-615 | wherever a run dies, the completed units name a prefix of the plan and each has its full artifact |
| `AcquisitionResume.ClaimsAreAPrefix` | backend/prisma/tools/rajaongkir-acquisition.ts:582-597 | with distinct keys the completed units of a sound storage are exactly a prefix of the plan's keys |
| `AcquisitionResume.CrashResume` | backend/prisma/tools/rajaongkir-acquire.ts:163-174 | after any crashes and failures a completed run yields the first-occurrence deduplication of all rows the server lists for the plan |
| `AcquisitionResume.CrashResumeEqualsOneRun` | backend/prisma/tools/rajaongkir-acquisition.ts:622-633 | that pool equals, as a sequence, the pool of one uninterrupted run |
| `AcquisitionKeys.RepeatedKeyLosesRowsExactly` | backend/prisma/tools/rajaongkir-acquisition.ts:503-512 | a run resumed between two units under one key makes no request, and its pool is the right one iff the second unit lists no id that the first does not |
| `AcquisitionKeys.SharedKeyLosesRows` | backend/prisma/tools/rajaongkir-acquisition.ts:503-512 | for any planned list with two terms under one key there are a server and a crash after which the completed run's pool is empty though the plan lists a row |
| `AcquisitionKeys.ResumesExactlyWhenKeysTellTermsApart` | backend/prisma/tools/rajaongkir-plan.ts:76-120 | a planned list resumes to the right pool, whatever the server lists and whatever fails, iff no key stands for two search terms |
| `AcquisitionKeys.TwoTermsUnderOneKey` | backend/prisma/tools/rajaongkir-plan.ts:76-82 | two district names with one slug, a server and a crash that lose a row |
| `AcquisitionRun.AppendNew` | backend/prisma/tools/rajaongkir-acquisition.ts:550-575 | the seen-set loop appends exactly the rows with new ids |
| `AcquisitionRun.WalkPages` | backend/prisma/tools/rajaongkir-acquisition.ts:516-577 | the page loop is the walk that the theorems are about |
| `AcquisitionRun.RunPaginatedAcquisition` | backend/prisma/tools/rajaongkir-acquisition.ts:483-615 | the run passes through exactly the storage states, and returns the result, of the specified run |
| `AcquisitionRun.ParseArtifact` | backend/prisma/tools/rajaongkir-acquire.ts:124-151 | the parsing loop accepts and returns exactly what is specified |
| `AcquisitionRun.ReconstructAcquiredUnits` | backend/prisma/tools/rajaongkir-acquire.ts:163-174 | reading the completed units back from storage, with the first missing or corrupt one reported |
| `AcquisitionRun.PoolFrom` | backend/prisma/tools/rajaongkir-acquisition.ts:622-633 | the pool loop maps the rows of all units, each id once |
| `JneMaster.InspectJneMasterPayload` | backend/prisma/tools/jne-master.ts:138-190 | the one-pass inspection finds the specified invalid, test, repeated and importable rows |
| `JneMaster.EveryRecordIsAccountedFor` | backend/prisma/tools/jne-master.ts:138-190 | the record at each position has exactly one fate: reported invalid at that position, a listed test code, imported, or listed under its repeated code |
| `JneMaster.RepeatedCodesAreReported` | backend/prisma/tools/jne-master.ts:160-186 | a code at two positions is reported with both and imported from neither |
| `JneMaster.InspectedSeedsAreClean` | backend/prisma/tools/jne-master.ts:206-226 | the seeds of an inspected payload are active, of one kind and source, with distinct codes |
| `MasterPlan.PlanMasterImport` | backend/prisma/tools/jne-master-plan.ts:333-560 | the planning loops produce the specified plan |
| `MasterPlanFacts.PlanPartitionsTheSeeds` | backend/prisma/tools/jne-master-plan.ts:353-369 | as multisets, the created seeds, the seeds of the updates and the seeds stored as they are make up the seeds |
| `MasterPlanFacts.CreatedFacts` | backend/prisma/tools/jne-master-plan.ts:356-362 | a seed is created exactly when no row of its kind has its code |
| `MasterPlanFacts.UpdatedFacts` | backend/prisma/tools/jne-master-plan.ts:356-369 | an update is for a stored row of a seed's code that differs from it |
| `MasterPlanFacts.MissingFacts` | backend/prisma/tools/jne-master-plan.ts:371-384 | the missing codes are the stored codes of the kind that the snapshot lacks |
| `MasterPlanFacts.UpdatedIsNotMissing` | backend/prisma/tools/jne-master-plan.ts:356-384 | no row is both updated and missing |
| `MasterPlanFacts.BlockerFree` | backend/prisma/tools/jne-master-plan.ts:467-540 | a plan has no blocker exactly when each of the groups of checks finds none |
| `MasterPlanFacts.BlockerFreeIsReviewed` | backend/prisma/tools/jne-master-plan.ts:535-540 | a blocker-free plan that writes under expectations carries the reviewed hash |
| `MasterPlanFacts.AckBlockersExactly` | backend/prisma/tools/jne-master-plan.ts:430-462 | no acknowledgment blocker iff acknowledgments and active MATCHED mappings on missing codes match one to one, each fitting its mapping |
| `MasterImport.WritePlan` | backend/prisma/tools/import-jne-master.ts:378-419 | inserts, renames and relabels in chunks of 500 reach the specified state, or report a short count |
| `MasterImport.CreateChunks` | backend/prisma/tools/import-jne-master.ts:378-392 | the insert chunks together insert every created seed |
| `MasterImport.RelabelChunks` | backend/prisma/tools/import-jne-master.ts:402-419 | the relabel chunks together rewrite exactly the updates without a rename |
| `MasterImport.WrittenInOrder` | backend/prisma/tools/import-jne-master.ts:378-419 | the three passes in order equal one rewriting of the stored rows followed by the new ones |
| `MasterVerify.WrittenIsWellFormed` | backend/prisma/tools/import-jne-master.ts:378-419 | the write keeps all keys and references, and no mapping's view changes |
| `MasterVerify.WrittenIsVerified` | backend/prisma/tools/import-jne-master.ts:426-447 | the check before the commit accepts what the writer wrote |
| `MasterVerify.AcceptedStateKeepsEverything` | backend/prisma/tools/import-jne-master.ts:426-447 | any state the check accepts keeps all ids, adds exactly the created rows, and leaves unplanned rows, the other kind and all mappings as they were |
| `MasterFixpoint.ImportIsAFixpoint` | backend/prisma/tools/jne-master-plan.ts:333-560 | after a blocker-free plan is written the same request plans no change, finds every seed stored, and has no blocker |
| `MasterRun.WriteChecked` | backend/prisma/tools/import-jne-master.ts:462-492 | a write that the check refuses leaves the store as it was |
| `MasterRun.ImportTransaction` | backend/prisma/tools/import-jne-master.ts:474-490 | the transaction commits exactly when the rebuilt plan has the reviewed hash and no blocker |
| `MasterRun.RunImport` | backend/prisma/tools/import-jne-master.ts:462-492 | under any interference the run leaves the database as the transaction found it or commits the rebuilt plan; undisturbed it never rolls back |
| `MasterRun.SameHashSamePlan` | backend/prisma/tools/jne-master-plan.ts:307-331 | two plans with one hash write the same rows and protect the same rows, whatever snapshots they were made of |
| `MasterRun.ReviewedPlanOnly` | backend/prisma/tools/import-jne-master.ts:462-492 | what is committed is the plan whose hash the reviewer passed on |
| `MasterRun.RunImportTwice` | backend/prisma/tools/import-jne-master.ts:462-492 | once a run has committed, the same run again has nothing to write and leaves the committed state |
| `MasterRun.DeactivationRefusals` | backend/prisma/tools/import-jne-master.ts:510-527 | the accumulated refusals are those specified, code by code |
| `MasterRun.RunDeactivateMissing` | backend/prisma/tools/import-jne-master.ts:530-567 | refused, dry, rolled back or committed, each with its exact state |
| `Manifest.ValidateManifest` | backend/prisma/tools/jne-mapping-manifest.ts:187-263 | the loop over the rows with its maps and seen pairs decides as specified |
| `Manifest.ImportTransaction` | backend/prisma/tools/import-jne-mapping-manifest.ts:157-187 | the chunked transaction inserts all candidates or none, and only if the target districts' mappings are as validated |
| `ManifestProofs.OneAcceptPerDistrict` | backend/prisma/tools/jne-mapping-manifest.ts:187-263 | at most one row per district is accepted |
| `ManifestProofs.ExactlyOneLive` | backend/prisma/tools/import-jne-mapping-manifest.ts:157-187 | a committed import leaves each of its districts with exactly one live mapping, the new candidate |
| `ManifestProofs.RevalidationIsANoop` | backend/prisma/tools/jne-mapping-manifest.ts:187-263 | validating again turns every ACCEPT into ALREADY_PENDING and nothing else moves |
| `ManifestProofs.WrittenLocationWasActive` | backend/prisma/tools/jne-mapping-manifest.ts:187-263 | every location a manifest is to write was active when the manifest was validated |
| `ManifestProofs.CandidatesOnActiveLocationsExactly` | backend/prisma/tools/import-jne-mapping-manifest.ts:162-187 | a committed import adds its live candidates, and all are on active locations iff every location written is active at the commit |
| `CandidateRace.CandidateOnInactiveLocation` | backend/prisma/tools/import-jne-mapping-manifest.ts:162-187 | a safe history of a validated import, a deactivated code and the import's commit that ends with a live candidate on an inactive location |
| `MappingTools.DecideApprovals` | backend/prisma/tools/approve-jne-mappings.ts:58-91 | the decision loop decides each pair as specified |
| `MappingTools.ApproveInTransaction` | backend/prisma/tools/approve-jne-mappings.ts:163-190 | all promotions or none, each re-checked on the row it finds |
| `MappingTools.DecideDeactivations` | backend/prisma/tools/deactivate-jne-mappings.ts:64-90 | the decision loop decides each pair as specified |
| `MappingTools.DeactivateInTransaction` | backend/prisma/tools/deactivate-jne-mappings.ts:194-212 | all compare-and-set deactivations or none |
| `MappingEffects.ApprovalEffect` | backend/prisma/tools/approve-jne-mappings.ts:163-190 | a committed approval turns exactly the rows it names, each once and each awaiting approval, into MATCHED rows of the reviewer, and moves nothing else |
| `MappingEffects.EveryListedPairIsApproved` | backend/prisma/tools/approve-jne-mappings.ts:58-91 | an undisturbed approval that commits leaves every listed pair with an active MATCHED mapping |
| `MappingEffects.DeactivationEffect` | backend/prisma/tools/deactivate-jne-mappings.ts:194-212 | a committed deactivation turns off exactly its targets, each once and each as it was decided on, and moves nothing else |
| `MappingEffects.EveryListedPairIsInactive` | backend/prisma/tools/deactivate-jne-mappings.ts:64-90 | an undisturbed deactivation that commits leaves no active mapping on any listed pair |
| `MappingEffects.ReactivationEffect` | backend/prisma/tools/reactivate-jne-mappings.ts:284-316 | a committed reactivation brings back exactly the rows reviewed, each once and each found as reviewed |
| `Lifecycle.CandidatesAreSafe` | backend/prisma/tools/import-jne-mapping-manifest.ts:162-187 | a manifest import keeps the invariant and every row |
| `Lifecycle.ApproveAllIsSafe` | backend/prisma/tools/approve-jne-mappings.ts:163-190 | approvals decided on an earlier state keep the invariant on the latest |
| `Lifecycle.DeactivateAllIsSafe` | backend/prisma/tools/deactivate-jne-mappings.ts:194-212 | deactivations keep the invariant and every row |
| `Lifecycle.ReactivateAllIsSafe` | backend/prisma/tools/reactivate-jne-mappings.ts:284-316 | reactivations keep the invariant and every row |
| `Lifecycle.ImportIsSafe` | backend/prisma/tools/import-jne-master.ts:462-492 | a master import keeps the invariant, every location and every mapping |
| `Lifecycle.MissingDeactivationIsSafe` | backend/prisma/tools/import-jne-master.ts:530-567 | deactivating missing codes never turns off a location that an active MATCHED mapping uses |
| `Lifecycle.EveryInterleavingIsSafe` | backend/prisma/schema.prisma:1411-1458 | over every history at most one active MATCHED mapping a district, each on an active DESTINATION, pairs unique, no row deleted or re-pointed |
| `Csv.ParseCsv` | backend/prisma/tools/csv.ts:13-70 | the character loop with one lookahead is the scan that the theorems are about |
| `CsvProofs.ParsesExactlyTheLayouts` | backend/prisma/tools/csv.ts:13-70 | a text parses to some rows iff, after its byte-order mark, it is a layout of them with quoted or plain cells and LF, CR LF or CR ends |
| `CsvRoundTrip.PrintedTableParsesExactly` | backend/prisma/tools/csv.ts:97-105 | a table printed with any of the three ends parses to itself iff every row has a field and no bare byte-order mark comes first |
| `CsvRoundTrip.CsvRoundTrip` | backend/prisma/tools/csv.ts:102-105 | what `toCsv` writes reads back as header and rows iff the header is not empty and its first name does not begin with a bare byte-order mark |
| `CsvRoundTrip.RereadIsTheSame` | backend/prisma/tools/csv.ts:13-105 | whatever was accepted, written and read again, is the same unless such a mark comes first |
| `CsvRoundTrip.RecordsRoundTripExactly` | backend/prisma/tools/csv.ts:82-95 | `parseCsvRecords` returns the header and every record that was written iff names are trimmed, none required is missing and no record is blank |
| `Code128.IsCode128BEncodable` | admin/lib/barcode/code128.ts:39-46 | exactly the non-empty printable ASCII values are encodable |
| `Code128.Code128BChecksum` | admin/lib/barcode/code128.ts:56-60 | the loop computes the position-weighted sum modulo 103 |
| `Code128.PatternModules` | admin/lib/barcode/code128.ts:62-66 | the loop writes the alternating runs of the pattern |
| `Code128.DecodeCode128B` | admin/lib/barcode/code128.ts:98-112 | the chunk loop decodes as specified, refusing whatever is not a symbol |
| `Code128Table.EveryPattern` | admin/lib/barcode/code128.ts:16-28 | every data pattern has six widths of 1 to 4 over eleven modules and no two symbols share one |
| `Code128Proofs.RunsAreInjective` | admin/lib/barcode/code128.ts:62-66 | equal modules come from equal patterns |
| `Code128Proofs.DecodesExactly` | admin/lib/barcode/code128.ts:98-112 | a module string decodes to a text iff it is that text's symbol, for any well-formed table |
| `Code128Proofs.Code128RoundTrip` | admin/lib/barcode/code128.ts:69-112 | decoding gives an encodable text iff the modules are that text's encoding |
| `Code128Proofs.DecodesMoreThanItEncodes` | admin/lib/barcode/code128.ts:98-112 | there is a symbol that decodes to a text the encoder refuses |
| `Code128Proofs.ReplacementIsCaught` | admin/lib/barcode/code128.ts:56-60 | replacing one character keeps the check character iff 103 divides its position |
| `Code128Proofs.SwapIsCaught` | admin/lib/barcode/code128.ts:56-60 | exchanging two different characters keeps the check character iff 103 divides their distance |
| `Code128Proofs.AdjacentSwapIsCaught` | admin/lib/barcode/code128.ts:56-60 | exchanging two different neighbours always changes the check character, at any length |
| `Code128Bars.Bars` | admin/lib/barcode/code128.ts:78-92 | the bars paint exactly the '1' modules, have width, are in order and never touch; there is one for every run |
| `Code128Bars.PaintingIsUnique` | admin/lib/barcode/code128.ts:78-92 | no other list of bars does so |
| `Code128Bars.BarsOfAnEncoding` | admin/lib/barcode/code128.ts:69-92 | the modules of an encoded value of length n begin a bar exactly 3(n + 2) + 4 times |
| `Code128Bars.Draw` | admin/lib/barcode/code128.ts:69-92 | the bars of an encoded value of length n paint its modules and number exactly 3(n + 2) + 4 |
| `RegionCodes.ParentIsThePrefix` | backend/prisma/tools/import-regions.ts:67-68 | the parent of a well-formed code is its prefix one level up, itself well formed |
| `RegionCodes.BetweenKeepsPrefix` | backend/prisma/tools/import-regions.ts:108-109 | whatever sorts between a prefix and a string that begins with it begins with it too |
| `RegionTree.ReadRegions` | backend/prisma/tools/import-regions.ts:92-99 | the reading loop accepts codes and names as specified, and fails on the first bad entry |
| `RegionTree.ReadPostal` | backend/prisma/tools/import-regions.ts:101-106 | malformed postal codes are skipped, the last well-formed one counts |
| `RegionTreeProofs.PlaceKeepsOrder` | backend/prisma/tools/import-regions.ts:109-151 | placing the next sorted code appends it to the preorder |
| `RegionTreeProofs.TreeIsTheSortedCodes` | backend/prisma/tools/import-regions.ts:108-151 | the preorder is the sorted code list and every region hangs under its prefix with its own name, type and postal code |
| `RegionTreeProofs.BuildsExactlyWhenClosed` | backend/prisma/tools/import-regions.ts:108-151 | the build succeeds iff the code set is prefix-closed and every city name carries its designation |
| `RegionTreeProofs.OrphanExactlyWhenNotClosed` | backend/prisma/tools/import-regions.ts:119-143 | with designated cities the orphan failure occurs iff the set is not prefix-closed |
| `RegionTreeProofs.FailureNamesTheFirst` | backend/prisma/tools/import-regions.ts:109-151 | a failure names the first sorted code without a parent or designation |
| `RegionTreeProofs.ImportsExactly` | backend/prisma/tools/import-regions.ts:77-163 | the tool emits a tree iff codes are distinct, well formed, named, prefix-closed, designated and of every level |
| `RegionTreeProofs.ImportedTree` | backend/prisma/tools/import-regions.ts:77-163 | the emitted tree holds every region of the table once, in code order, with the name read for it |
| `RegionBuilder.Builder.PlaceCode` | backend/prisma/tools/import-regions.ts:109-151 | one turn of the loop over mutable nodes and code maps does to the tree they show what is specified |
| `RegionBuilder.BuildTree` | backend/prisma/tools/import-regions.ts:108-151 | the loop's nodes show exactly the specified tree, or it fails exactly where the specification does |
| `RegionBuilder.ImportRegions` | backend/prisma/tools/import-regions.ts:77-163 | the whole tool, with the refusal of an empty or partial dataset |
| `RbacSync.PlanRbacSync` | backend/prisma/bootstrap/rbac.ts:44-82 | the loops over grants and targets produce the specified plan |
| `RbacSync.ApplyRbacPlan` | backend/prisma/bootstrap/rbac.ts:85-112 | the rows written one at a time, up to the throw, are as specified |
| `RbacSync.EnsureRbac` | backend/prisma/bootstrap/rbac.ts:120-125 | plan, apply and the lookup of SUPER_ADMIN: what is returned and stored, and when it throws |
| `RbacProofs.HeldMeans` | backend/prisma/bootstrap/rbac.ts:54-63 | the keys gathered for a role are those of the permissions it holds |
| `RbacProofs.PlainEntryParses` | backend/prisma/bootstrap/rbac.ts:98-104 | a permission without dot or colon survives the way through its entry |
| `RbacConverges.SyncConvergesExactly` | backend/prisma/bootstrap/rbac.ts:114-125 | the sync runs through and leaves every governed role with exactly its matrix iff no governed role held a permission with a dot or colon |
| `RbacConverges.HeldAfterSync` | backend/prisma/bootstrap/rbac.ts:85-112 | what every role holds afterwards |
| `RbacConverges.SyncKeepsTheRest` | backend/prisma/bootstrap/rbac.ts:114-125 | SUPER_ADMIN holds the catalogue and all it held, other roles what they held, and no role or permission row goes |
| `RbacConverges.NextPlanIsEmpty` | backend/prisma/bootstrap/rbac.ts:44-82 | the next plan creates, grants and removes nothing |
| `RbacConverges.OddGrantCostsTheMatrixGrant` | backend/prisma/bootstrap/rbac.ts:98-111 | a held permission named like a longer matrix permission makes the sync remove the matrix grant |
| `AdminPrograms.AdminStore.BootstrapProduction` | backend/prisma/bootstrap/production-bootstrap.ts:85-115 | the statements of one undisturbed bootstrap have the specified effect and outcome |
| `AdminPrograms.AdminStore.CreateAdmin` | backend/prisma/bootstrap/admin-lifecycle.ts:143-184 | the statements of one undisturbed creation have the specified effect and outcome |
| `AdminPrograms.AdminStore.DisableAdmin` | backend/prisma/bootstrap/admin-lifecycle.ts:198-244 | the statements of one undisturbed disabling have the specified effect and outcome |
| `AdminPrograms.AloneHasItsEffect` | backend/prisma/bootstrap/admin-lifecycle.ts:143-244 | the step machine of an undisturbed run ends with that effect and the lock free |
| `AdminSafety.BeginningIsSound` | backend/prisma/bootstrap/admin-lifecycle.ts:143-244 | with distinct admins stored and no run under way the invariant holds |
| `AdminSafety.EventKeepsSound` | backend/prisma/bootstrap/production-bootstrap.ts:80-89 | only the run that holds the lock has read anything, so what it read still holds when it writes |
| `AdminSafety.EveryInterleavingIsSafe` | backend/prisma/bootstrap/admin-lifecycle.ts:143-244 | an active SUPER_ADMIN once there is always there, no second one is made, emails stay unique, existing rows change only by being disabled |
| `AdminSafety.OnlyCommitsChangeAdmins` | backend/prisma/bootstrap/admin-lifecycle.ts:162-240 | each commit adds its one admin or turns one off, with exactly one audit row for creation and disabling |
| `AdminSafety.NothingChangesConcurrently` | backend/prisma/bootstrap/admin-lifecycle.ts:221-222 | under the lock the compare-and-set never finds the admin changed |
| `AdminSafety.WithoutTheLockNoneIsLeft` | backend/prisma/bootstrap/admin-lifecycle.ts:202-219 | without the lock two disablings side by side leave no active SUPER_ADMIN |
| `CurlExport.MergeText` | admin/lib/system/curl-export.ts:256-265 | the merging loop is the specified merge |
| `CurlExport.CutPairs` | admin/lib/system/curl-export.ts:178-193 | the loop over the pairs cuts as specified |
| `CurlProofs.ShellWordIsLossless` | admin/lib/system/curl-export.ts:131-139 | the word of any parts is one shell word and expands to the texts and the variables' values |
| `CurlProofs.PostmanWordIsLossless` | admin/lib/system/curl-export.ts:142-144 | the Postman word is one word that expands to the template |
| `CurlProofs.MergeKeepsTheText` | admin/lib/system/curl-export.ts:256-265 | merging keeps the filled text in every environment |
| `CurlProofs.MergeIsTight` | admin/lib/system/curl-export.ts:256-265 | no text part is empty, no two are adjacent, no variable is invented |
| `CurlProofs.PartsRefillExactly` | admin/lib/system/curl-export.ts:178-193 | the parts give the stored text back iff every variable has the value that it replaced |
| `CurlProofs.CanBeReproducedExactly` | admin/lib/system/curl-export.ts:178-193 | some environment reproduces the text iff no credential variable replaced two different values |
| `CurlProofs.ShellReproducesTheForm` | admin/lib/system/curl-export.ts:120-125 | the shell word of a stored form expands to that form iff the operator filled in its credentials |
| `CurlProofs.CredentialsLeaveNoTrace` | admin/lib/system/curl-export.ts:178-193 | texts that differ only in credential values make the same parts |
| `CurlProofs.VariablesAreNames` | admin/lib/system/curl-export.ts:75-79 | for a provider whose name begins with a letter every variable is a valid shell name |

## Left out

- Strings are sequences of Unicode scalar values, not UTF-16 units; upper-casing covers the ASCII letters only.
- JSON numbers are reals and JSON texts are already parsed; integers are unbounded; ids are numbers that are never reused.
- Failure texts, log lines, reports, warnings, command-line options, prompts and file naming.
- The clock: one `now` per run. Network, storage and database calls are parameters, classes or atomic steps.
- Acquisition: building request URLs from a term, limit and offset; the non-paginated `runAcquisition`; raw file names
  (storage is keyed by unit key); checkpoint fields the resume check does not read.
- Locale-aware sorting: rows are decided, and missing codes listed, in the order given or stored.
- SHA-256 is modelled by the value that is hashed, so two hashes are equal exactly when those values are.
- `MasterPlan.PlanMasterImport`: the plan's warnings, notes and report-only fields are not modelled, and mapping impacts keep
  the stored order where the source sorts them.
- Master import: the provenance URL checks are an input; the search fields derived from a raw name
  (`normalizeJneName`, `parseJneName`) are a parameter; plan formatting.
- Manifest candidates: the contents of notes and evidence. Pairs are compared as pairs, not as joined strings; reading the
  manifest, approval and review files into rows is not connected to the CSV model.
- `MappingTools.ReactivateTransaction`: the reactivation tool is modelled on values, so its loop is not; its review hash is
  the compared state itself.
- District and city activity is constant over a mapping history.
- CSV: the line numbers in error messages; values that are not strings.
- Regions: extracting tuples from the SQL dumps; writing the JSON file.
- Roles: the catalogue is a parameter with its stated rules (plain names, matrix inside the catalogue); what a run that
  throws leaves to roles outside the catalogue.
- Admin accounts: hashing and the email and password rules (a job carries an accepted email and a hash); the early
  read-only checks before the prompts; deadlocks and lost connections other than a crash.
- cURL export: `jsonParts`, the URL checks, notes and warnings; percent-decoding and the credential-key pattern are
  parameters.
