# Verified model of the Spine core

Spine moves a deployment's state between hubs, distributes updates down a tree of hubs, meters
licensed usage in a hash-chained ledger, restarts dead daemons behind a circuit breaker, decides
where a lesson may be shared, scrubs it, plans version upgrades, and turns a markdown backlog into
tickets. This project models the logic of those eight parts in Dafny and proves what they promise,
for all inputs, all runs and all reachable states. `dafny verify dfyconfig.toml` checks it.

## How it is organised

| files | what they hold |
|---|---|
| `Json.dfy`, `JsonRoundTrip.dfy`, `JsonFormat.dfy`, `Sorting.dfy`, `TextLines.dfy` | the canonical JSON printer in its three styles, the parser, the written form, stable sorting by key |
| `Jsonl.dfy`, `ReaderOrder.dfy`, `Export.dfy`, `Import.dfy`, `ImportSafety.dfy`, `ImportRuns.dfy`, `ManifestChecks.dfy` | portable export and import of the whole state; what any run, failed or repeated, leaves |
| `ManifestPins.dfy`, `ArchiveRoundTrip.dfy`, `KeyedTables.dfy`, `FreshImport.dfy` | what the manifest records, and the round trip, up to and through the destination's keyed tables |
| `Attestation.dfy` | two-party attestation over the evidence printer |
| `Federation.dfy`, `CascadeProtocol.dfy`, `CascadeDelivery.dfy` | hubs, consent, the update cascade, every run of them, and what an approval delivers |
| `QuotaLedger.dfy`, `QuotaRuns.dfy`, `QuotaAcceptance.dfy`, `QuotaGate.dfy`, `AnchorText.dfy` | the usage ledger, its replay, and the cached quota read |
| `AutoRecovery.dfy` | the restart circuit breaker |
| `LearningScope.dfy`, `LearningConsent.dfy`, `Scrubber.dfy` | learning consent, tiers, and the scrub |
| `SpineVersion.dfy`, `Versions.dfy` | the upgrade planner and executor |
| `Backlog.dfy` | the single-pass backlog parser |
| `Wrappers.dfy` | `Option` |

Code that updates objects is modelled by classes (`Federation.Database`, `Federation.UpdateCascade`,
`QuotaGate.License`, `AutoRecovery.AutoRecoveryManager`, `LearningConsent.ConsentRegistry`,
`Import.Dest`, `Backlog.Walker`); code that loops over local variables by methods with loops. Each
is tied to a specification function, and the theorems are about that function.

## Assumptions

* SHA-256 is collision-free (`Attestation.CollisionFree`, `ImportSafety.Injective`) or, in the ledger,
  a free term that never is the genesis anchor. `AnchorText.AnchorPayloadInjective` shows that the
  text the ledger hashes determines the five fields, which is what makes the term faithful.
* A signature is whatever the verifier accepts; the export theorems assume a verifier that accepts
  what the signer signs.
* Calls are atomic: one approval, one `record_usage`, one quota read at a time.
* The update cascade is given ids from `pull_pending` of the hub that approves (`CascadeProtocol.Legal`).
* Clocks do not run backwards where a theorem says so (`AutoRecovery.Orderly`, `QuotaRuns.ExactAcceptance`).
* `show` is Python's `str()`; it is a parameter, so sorting by id holds for any `str()`.

## Where code and documentation disagree

The model follows the code.

* **Identical re-export** (`migration/import_.py:3-6`, `migration/export.py:379-389`). Three
  conditions are needed, and together they are exact (`FreshImport.FreshRoundTripIff`, slice by slice
  `KeyedTables.SliceReadsBackIff`): in every slice,
  no two imported rows share a primary key, or the upsert loses one (`KeyedTables.SharedPkLosesRow`);
  rows that share a sort key are the same line, or the order of the reader shows
  (`ReaderOrder.SharedIdReorders`: two tables of a schema with one id);
  and the sort keys of the imported rows are still in order, which fails for ids that are datetimes or
  bytes (`Jsonl.OpaqueIdsReorder`, with the bytes 0x61 and 0xC3 in `Jsonl.BytesThatReorder`).
* **Order of the import checks** (`migration/import_.py:314-317`). The manifest version is checked
  before the signature (`ImportRuns.SignatureRefusedIff`, `ImportRuns.VersionHidesSignature`), and slice
  hashes after the version window.
* **Roll-back** (`migration/import_.py:17-19`). Nothing is rolled back; what holds is that the writes
  are a prefix (`ImportSafety.ImportWritesPrefix`). A broken replay leaves every row
  (`FreshImport.BrokenReplayLeavesRows`); `ImportRuns.LeavesNothingIff` says when a run leaves nothing.
* **The ledger verifies** (`license/quota_ledger.py:133-144`, `license/quota_ledger.py:218-238`). An
  update chains from the row's own old anchor, the replay only from the row before. So an honest
  ledger with default periods is accepted exactly when every period was recorded once
  (`QuotaRuns.ExactAcceptance`); for any periods, see `QuotaAcceptance.AcceptanceIff`.
* **The month containing now** (`license/quota_ledger.py:71-79`). For an aware reading in another zone
  the month is that of the local fields, taken as a UTC month. It contains the moment exactly when the
  offset does not carry it out of that month (`QuotaLedger.DefaultPeriodCoversIff`).
* **Swapping attestors changes the hash** (`evidence/two_party_attestation.py:20-22`). It does exactly
  when the two signatures do not commute as strings (`Attestation.SwapDetected`).
* **A category revoke leaves the umbrella** (`learning/consent.py:280-282`). It writes `True`
  (`learning/consent.py:293-299`), so other answers stay as they were exactly where the category was
  named before or the umbrella was on (`LearningConsent.CategoryRevokeKeepsOthersIff`). Without any
  consent, it consents to everything else (`LearningConsent.CategoryRevokeGrants`).
* **The consent upsert** relies on `UNIQUE (hub_id, project_id)`
  (`db/flyway/sql/V29__smart_spine_learning.sql:60`), which never sees two NULLs as equal. A scope
  without one of the ids keeps several rows and a grant outlives a revoke
  (`LearningConsent.GrantOutlivesRevoke`); the history is what is read exactly for scopes with both
  ids (`LearningConsent.HistoryRefinedIff`).
* **The hub tree** (`db/flyway/sql/V23__federation_registry.sql:24`). The foreign key lets a hub be its
  own parent, and then an update reaches it twice. At-most-once distribution holds exactly when no hub
  is its own parent (`CascadeProtocol.AtMostOnceIff`).
* **Sprint tables** (`tools/backlog_to_jira_csv.py:91-99`). Only the head line and rows that name a
  story are kept out of descriptions; the ruler line of a sprint table is text like any other
  (`Backlog.Eligible`).

## Model

| member | source | states |
|---|---|---|
| JsonRoundTrip.ParsePrint | migration/export.py:319-332 | parsing a printed value gives it back, hook leaves as strings and keys in order, and stops exactly at its end, whatever follows and in every style |
| JsonRoundTrip.LoadsPrint | migration/export.py:319-324 | `json.loads` undoes canonical JSON for every value without repeated keys |
| JsonRoundTrip.ParseCharsReadsEscape | migration/export.py:319-324 | every escaped string, with or without `ensure_ascii`, reads back to itself up to its closing quote, surrogate pairs included |
| JsonRoundTrip.ParseIntReadsDecimal | migration/export.py:319-324 | every integer reads back from its decimal text |
| JsonRoundTrip.PrintInjective | evidence/_types.py:71-89 | two values print alike if and only if they are equal up to member order and the text of datetime and bytes leaves |
| JsonRoundTrip.PrintPrefixFree | evidence/_types.py:71-89 | no printed object is a prefix of another, so object-plus-tail splits one way only |
| JsonRoundTrip.PrintPlainIn | migration/export.py:319-332 | a value that was read back prints as before, also as a sort key in the other style |
| JsonRoundTrip.PrintNoControl | migration/export.py:319-324 | canonical JSON never holds a raw line break or other control character |
| JsonFormat.MemberOrderIrrelevant | migration/export.py:319-324 | a dict is written alike in whatever order its members come |
| JsonFormat.MembersInKeyOrder | migration/export.py:319-324 | the members of a written dict are its members, each once, with keys in order |
| JsonFormat.KnownTexts | migration/export.py:319-324 | the scalars and the separators as the three callers of the encoder write them |
| JsonFormat.KnownEscapes | migration/export.py:319-324 | the short escapes and the control characters, with or without `ensure_ascii` |
| JsonFormat.KnownWideEscapes | evidence/_types.py:71-89 | what `ensure_ascii` changes: four hex digits for other characters |
| JsonFormat.KnownSurrogates | evidence/_types.py:71-89 | and a surrogate pair beyond the basic plane |
| JsonFormat.KnownLeaves | evidence/_types.py:71-89 | for datetime and bytes leaves the exporter writes its own text, the evidence store their `str()` |
| JsonFormat.RowKeyMeaning | migration/export.py:379-389 | a row is ordered by `str()` of the first of five columns it has, or by its text |
| JsonFormat.LineEnds | migration/import_.py:275-282 | a line ends at a line feed, a carriage return or the two together, and at nothing else |
| JsonFormat.BlankLinesSkipped | migration/import_.py:275-282 | blank lines are skipped wherever they stand |
| Sorting.SortOrderIndependent | migration/export.py:379-389 | where equal keys mean equal entries, the sorted list does not depend on the order it came in |
| Jsonl.RenderSchemaJsonl | migration/export.py:392-399 | the buffer loop writes the rows in sort-key order, one canonical object and a line feed each |
| Jsonl.ParseJsonl | migration/import_.py:275-282 | the reader's loop returns the JSON of the non-blank lines in order, or fails if one is not JSON |
| Jsonl.SplitRendered | migration/import_.py:275-282 | line splitting is exact: the lines of a rendered slice are the texts of its rows |
| Jsonl.ParseRendered | migration/import_.py:275-282 | parsing a rendered slice gives its rows in sort-key order with datetime and bytes leaves as strings |
| Jsonl.ReRenderIff | migration/export.py:379-399 | rendering what was parsed gives the same bytes if and only if the sort keys of the parsed rows are still in order |
| Jsonl.ScalarIdsReRender | migration/export.py:379-399 | with scalar ids, or none, rendering what was parsed gives the same bytes |
| Jsonl.OpaqueIdsReorder | migration/export.py:379-389 | two datetime or bytes ids that `str()` and the wire text order differently change the bytes |
| Jsonl.BytesThatReorder | migration/export.py:327-332 | such a pair: the bytes 0x61 and 0xC3 |
| Jsonl.SortRowsOrderIndependent | migration/export.py:379-389 | a faulty reader order cannot change a slice whose sort keys tell its rows apart |
| ReaderOrder.ReaderOrderIff | migration/export.py:379-389 | every order a reader may return gives the same slice if and only if rows that share a sort key are written as the same line |
| ReaderOrder.ReRenderAnyOrderIff | migration/export.py:379-399 | every order of the imported rows renders to the exported bytes if and only if rows that share a key are the same line and the keys in file order do not decrease |
| ReaderOrder.TiedRowsReorder | migration/export.py:379-389 | two rows with one key and different lines give different bytes in the two orders |
| ReaderOrder.SharedIdReorders | migration/export.py:379-389 | such a pair: rows of two tables of one schema that share an id |
| Jsonl.NewlinesCountRows | migration/export.py:460-499 | counting line feeds counts rows |
| Export.Spine10Valid | migration/export.py:83-97 | the shipped slice list and version registry meet what the theorems ask of a release |
| Export.BuildManifest | migration/export.py:460-499 | one pass over the staged files splits them into slices in registry order and other files by path, each with its hash |
| Export.ExportState | migration/export.py:516-591 | the archive is the manifest, its signature over exactly the manifest text, then the staged files by path |
| ManifestPins.ManifestCovers | migration/export.py:460-499 | every member behind manifest and signature is recorded in the manifest with the hash of its content: a slice with its size and number of rows, any other file under its path |
| ManifestPins.OnlyMembersListed | migration/export.py:460-499 | nothing else is listed among the other files |
| ManifestPins.ManifestSays | migration/export.py:359-376 | the rest of the manifest is its version, the current release and what the run was given |
| ManifestPins.IntegrityIsThere | migration/export.py:418-457 | the audit-chain integrity report is in the archive as it was read |
| ManifestPins.FilesAreThere | migration/export.py:418-457 | bundle, license and charters are in the archive under their names, as they were read |
| ManifestPins.RefsAreThere | migration/export.py:418-457 | the vault paths are in the archive |
| ManifestPins.RefsSorted | migration/export.py:418-457 | each as often as it was read, in order |
| ManifestPins.ArchiveOrder | migration/export.py:564-579 | manifest first, the signature of exactly that text second, then every other member by path |
| Import.ImportState | migration/import_.py:304-486 | a run makes exactly the calls of the specification and returns its report or error; however it ends, the store is what those calls make of the old one, the raising call left out |
| ImportSafety.NothingWrittenBeforeVerification | migration/import_.py:10-13 | if anything at all was asked of the destination, the run was not dry and the manifest's signature had been accepted |
| ImportSafety.ImportWritesPrefix | migration/import_.py:396-473 | wherever it stops, the calls are one write per slice in registry order, each of rows whose slice matched the signed manifest, then the auxiliary writes, reached only after every slice succeeded |
| ImportSafety.ManifestDecidesRows | migration/import_.py:14-16 | with a collision-free hash, archives with one manifest write the same rows for every slice both reach |
| ImportSafety.UpsertLastWins | migration/import_.py:20-21 | after an upsert each key holds the last row written for it and other keys are untouched |
| ImportSafety.ReimportIsNoOp | migration/import_.py:20-21 | importing after the same import got any number of calls far leaves the store of one import |
| ImportRuns.RunFollowsClean | migration/import_.py:396-473 | whatever raises and whatever calls came before, a run makes a prefix of the calls of the run in which nothing raises; if it succeeds it is that run |
| ImportRuns.SecondImportSameState | migration/import_.py:20-21 | two successful runs of one archive, at whatever calls they start, are the same run, and the second changes nothing |
| ImportRuns.ImportTwice | migration/import_.py:20-21 | on one destination: two successful imports leave the store of the first; wherever the first stopped, a successful second leaves what one import leaves |
| ImportRuns.LeavesNothingIff | migration/import_.py:17-19 | a real run past the manifest leaves every store as it was if and only if the slices it wrote were empty and it stopped before the first auxiliary write came through |
| ImportRuns.RunIsFinish | migration/import_.py:396-473 | the run past the manifest is the loop over the slices and what follows, which is what the condition above speaks of |
| ImportRuns.BrokenReplayKeepsWrites | migration/import_.py:459-473 | a replay that reports a break fails the run, which keeps every write of a successful one |
| FreshImport.BrokenReplayLeavesRows | migration/import_.py:17-19 | such a run: every exported archive, imported into empty tables under a broken replay |
| ImportRuns.SignatureRefusedIff | migration/import_.py:314-317 | the signature is refused if and only if manifest and signature can be read, the manifest version is the supported one, and the verifier says no |
| ImportRuns.VersionHidesSignature | migration/import_.py:351-361 | another manifest version is reported as that, whatever the signature is worth |
| ManifestChecks.WindowIff | migration/import_.py:363-382 | behind an accepted signature, by places in the list of releases: refused as newer if and only if the source stands behind the current release, as unsupported if and only if one is unknown or the current one is further ahead than the window, accepted if and only if within it |
| ManifestChecks.OnlyWithinWindow | migration/import_.py:363-382 | whatever a run did, dry or not, it did behind an accepted signature, of the supported manifest version and within the window |
| ManifestChecks.GetMemberIsLast | migration/import_.py:264-272 | of several members of one name the last is read |
| ManifestChecks.LastEntryCounts | migration/import_.py:397-404 | of several manifest entries for one schema the last counts |
| ManifestChecks.SliceErrorTells | migration/import_.py:398-427 | a reported hash mismatch or failed write is about a slice that does differ, or a write that did raise |
| ImportRuns.DryRunPredicts | migration/import_.py:417-427 | a dry run calls nothing and finds what a real run finds where nothing raises: the same error or the same counts |
| ArchiveRoundTrip.ExportIsAccepted | migration/import_.py:304-486 | an exported archive passes every check and is imported completely: all slices, all auxiliary state, row counts as exported |
| ArchiveRoundTrip.ManifestCountsRows | migration/export.py:460-499 | the manifest's row count of a slice is the number of rows imported from it |
| ArchiveRoundTrip.ExportImportExport | migration/import_.py:3-6 | a reader that returns the rows the importer handed over, in any order, re-exports the same members in the same order, given scalar ids that tell rows apart |
| ArchiveRoundTrip.ReExportIff | migration/import_.py:3-6 | a reader that returns the rows in file order re-exports the same archive if and only if the sort keys of the imported rows are in order in every slice |
| KeyedTables.SliceReadsBackIff | migration/import_.py:3-6 | a slice, imported into an empty keyed table and read back in any order, is re-exported identically if and only if no two imported rows share a primary key, rows that share a sort key are the same line, and the keys do not decrease |
| KeyedTables.SharedPkLosesRow | migration/import_.py:20-21 | two rows under one primary key: every reader of the table gets fewer rows than were written |
| FreshImport.ImportLeaves | migration/import_.py:304-486 | what a complete import of an exported state leaves in a store with empty tables |
| FreshImport.FreshRoundTripIff | migration/import_.py:3-6 | after an import into empty tables, every reader of the store re-exports the identical archive if and only if every slice meets that condition |
| FreshImport.ImportExported | migration/import_.py:3-6 | the same over a destination: it holds after every import that succeeds |
| FreshImport.StableKeysSurvive | migration/import_.py:3-6 | with scalar ids that tell rows apart, distinct primary keys are all a slice needs |
| Attestation.HashBinds | evidence/two_party_attestation.py:52-73 | hashes are equal if and only if the evidence is the same and A's signature followed by B's is the same |
| Attestation.HashBindsEachSignature | evidence/two_party_attestation.py:93-107 | with A signatures of one length, verification succeeds if and only if evidence and both signatures are the same |
| Attestation.SwapDetected | evidence/two_party_attestation.py:20-22 | swapped attestors verify if and only if the signatures commute; for one length, if and only if they are equal |
| Attestation.SwapUnnoticed | evidence/two_party_attestation.py:20-22 | two different signatures whose swap verifies |
| Attestation.CanonicalReads | evidence/_types.py:71-89 | the canonical payload reads back as six members under their names |
| Federation.RevokeEffect | federation/consent.py:213-247 | a revoke takes exactly the records of its triple, and a peer stays allowed if and only if another record of the class names it |
| Federation.GrantEffect | federation/consent.py:172-211 | a grant needs a grantor and two known hubs, and allows the class to these two hubs and nobody else |
| Federation.RegisterEffect | federation/hub_registry.py:190-248 | a registered child stands behind its parent's children, as it was given, and under no other hub |
| Federation.BootstrapEffect | federation/hub_registry.py:146-188 | bootstrapping twice is bootstrapping once, and a new local hub is active |
| Federation.SetStatusEffect | federation/hub_registry.py:250-273 | only the status of the named hub changes |
| Federation.UpdateCascade.CascadeToChildren | federation/update_cascade.py:248-320 | the loop over children with its three counters does what the specification says |
| Federation.UpdateCascade.Approve | federation/update_cascade.py:115-162 | new tables and outcome of an approval, error paths included |
| CascadeProtocol.StepKeepsLines | federation/update_cascade.py:115-343 | whatever the hub table looks like, every operation keeps each row's line of descent and never leaves a completed row pending |
| CascadeProtocol.StepKeepsInv | federation/update_cascade.py:115-343 | while no hub is its own parent, every operation also keeps the hubs a forest and no update twice at a hub |
| CascadeProtocol.AtMostOnceDistribution | federation/update_cascade.py:136-162 | in every run without a self-parented hub each seeded update has at most one row per hub |
| CascadeProtocol.AtMostOnceIff | federation/hub_registry.py:190-223 | after any run, no further traffic can duplicate an update if and only if no hub is its own parent |
| CascadeProtocol.SelfParentDuplicates | db/flyway/sql/V23__federation_registry.sql:24 | whenever a hub is its own parent, three more steps give it one update twice |
| CascadeProtocol.NoAutoPush | federation/update_cascade.py:127-162 | in every run, self-parented hubs or not, every row descends from a seed along parent-to-child edges, same version and signature on every link, each row above it completed by a named approver |
| CascadeProtocol.NeverPendingAgain | federation/update_cascade.py:136-191 | a row that left `pending` is never removed and never offered by `pull_pending` again, whatever approvals and rejections follow |
| CascadeProtocol.CascadeAccounting | federation/update_cascade.py:268-320 | a cascade adds exactly `succeeded` pending rows and changes no other, attempted = succeeded + failed = the eligible children |
| CascadeProtocol.EligibleMembers | federation/update_cascade.py:271-277 | a child is eligible if and only if it is active and a mandatory class covers it or a consent record mentions it |
| CascadeProtocol.ApproveOutcome | federation/update_cascade.py:127-162 | an approval goes through if and only if it is attributed, the row is pending and the smoke passes; a refusal changes nothing but a failed row's status |
| CascadeProtocol.RejectOutcome | federation/update_cascade.py:164-191 | an attributed rejection rolls the row back in the rejecter's name, whatever its status, and does nothing else |
| CascadeDelivery.ApprovalDelivers | federation/update_cascade.py:248-343 | an approval that goes through gives every active child that may be pushed to its own pending row, with the update's version and signature, if and only if the insert for it does not fail; attempted, succeeded and failed count exactly these children |
| CascadeDelivery.RunKeepsParents | federation/hub_registry.py:190-223 | what that asks of the hub table holds in every run |
| QuotaLedger.PeriodsTile | license/quota_ledger.py:70-85 | default periods tile the calendar: every UTC instant in its own month and in no other, each month ending where the next starts |
| QuotaLedger.DefaultPeriodCoversIff | license/quota_ledger.py:70-85 | the default period of an aware clock reading contains that moment if and only if the zone's offset does not carry it out of the month its fields name |
| QuotaLedger.DefaultPeriodMisses | license/quota_ledger.py:76-79 | a reading that misses: 2024-02-01T00:30+02:00 is in January and gets February |
| QuotaLedger.Replay | license/quota_ledger.py:218-239 | the replay loop accepts if and only if every row carries the chained anchor, and reports the first that does not |
| QuotaLedger.VerifyChain | license/quota_ledger.py:201-239 | the same for the rows of one flag in period order |
| QuotaLedger.TailCommits | license/quota_ledger.py:48-67 | accepted ledgers that end in the same anchor are equal row by row |
| QuotaLedger.RowChangeReported | license/quota_ledger.py:218-239 | any replaced row of an accepted ledger is reported at that row, or, if it carries its own new anchor, at the next; only a re-anchored last row passes |
| QuotaLedger.UsageChangeReported | license/quota_ledger.py:218-239 | a changed period or usage is reported at exactly that row |
| QuotaLedger.RecordReports | license/quota_ledger.py:88-198 | a recording is refused for a negative increment or an empty period and changes nothing then; otherwise it reports the usage and anchor of the one row it left, new or increased, and every other row stays |
| QuotaRuns.ExactAcceptance | license/quota_ledger.py:133-177 | over runs with default periods and an orderly clock, the replay accepts if and only if every period was recorded once, and otherwise stops at the earliest recorded more often |
| QuotaAcceptance.AcceptanceIff | license/quota_ledger.py:133-177 | over any calls, explicit, overlapping and back-filled periods included, the replay accepts if and only if each row, in start order, was recorded once while the latest earlier row was its predecessor, and otherwise stops at the first that was not |
| QuotaRuns.FlagsAreIndependent | license/quota_ledger.py:124-177 | a flag's rows depend on that flag's calls only |
| QuotaRuns.UsageConserved | license/quota_ledger.py:133-190 | the usage read at any instant is the sum of the increments whose period covers it, for any periods |
| QuotaRuns.MonthlyUsage | license/feature_flags.py:140-157 | with default periods it is the sum recorded in that calendar month |
| QuotaGate.License.RecordUsage | license/quota_ledger.py:88-198 | table, result and error cases of a recording; it empties the quota cache |
| QuotaGate.License.QuotaRemaining | license/feature_flags.py:129-193 | with a ceiling of c, the first bundle row of the flag or zero, and a recorded total of u, a miss answers c - u or zero where u is more, and no number without a ceiling; a hit is that of a fill younger than the TTL, with nothing recorded since; a failed read gives zero |
| AnchorText.AnchorPayloadInjective | license/quota_ledger.py:48-67 | the anchored text determines all five fields, even when the flag name holds line breaks |
| AnchorText.AnchorLines | license/quota_ledger.py:60-66 | the anchored text is the five fields, one line each, in this order |
| AutoRecovery.AutoRecoveryManager.CheckAndRecover | recovery/auto_recovery.py:239-308 | each action, exactly when; the circuit is open if and only if an unhealthy supervised target was, by the answers so far, restarted at least the maximum number of times within the last window; no window holds more; no other target's log changes |
| AutoRecovery.BreakerSeesHistory | recovery/auto_recovery.py:331-337 | although the log is pruned, the breaker is open if and only if the full history has the maximum within the last window |
| AutoRecovery.AnswersSeeRestarts | recovery/auto_recovery.py:269-308 | by the answers alone: a check answers that the circuit is open if and only if an unhealthy supervised target was restarted at least the maximum number of times within the last window |
| AutoRecovery.RestartsAreHistory | recovery/auto_recovery.py:299-340 | what the log records is what the answers report |
| AutoRecovery.SlidingWindowBound | recovery/auto_recovery.py:54-55 | in every run, any closed window of the configured length holds at most the maximum number of checks of a target that answered with a restart |
| LearningScope.Gate | learning/contribute.py:90-134 | project always listed, the highest tier listed is the scope granted (or DENIED was asked), every tier up to the request listed or skipped, never both |
| LearningScope.GivenPolicyDecides | learning/scope.py:156-244 | which tiers are listed, from the policies given: explicit before loaded before the default, bundle flags over the policy's, a category entry over the umbrella |
| LearningScope.ContributeLesson | learning/contribute.py:178-213 | whatever the writer does, written and failed tiers are disjoint and are the gated tiers, each with the writer's own answer |
| LearningConsent.ConsentRegistry.Decide | learning/consent.py:128-172 | a decision is stored under its scope and returned as the effective policy; a record without a scope is refused |
| LearningConsent.RowRefinesHistory | learning/consent.py:115-172 | for a scope with both ids there is one row and it says what a scan of the whole history says |
| LearningConsent.HistoryRefinedIff | learning/consent.py:128-172 | every stored row answers as the history does, for all decisions, if and only if the scope names hub and project |
| LearningConsent.GrantOutlivesRevoke | db/flyway/sql/V29__smart_spine_learning.sql:60 | otherwise a grant and a full revoke leave two rows and the first still consents |
| LearningConsent.RevokeMeaning | learning/consent.py:268-304 | a full revoke denies exactly the known categories by name; a category revoke denies that one and consents to any never named |
| LearningConsent.CategoryRevokeKeepsOthersIff | learning/consent.py:280-282 | a category revoke leaves any other answer, the umbrella's included, as it was if and only if that category was named before or the umbrella was on |
| LearningConsent.CategoryRevokeGrants | learning/consent.py:293-299 | the failing input: with no consent at all, revoking one category consents to the umbrella and every other category |
| Scrubber.ScrubFields | learning/anonymizer.py:162-179 | the recursive loop returns the specified clean dict and redaction list |
| Scrubber.KeptOrCut | learning/anonymizer.py:162-179 | every path of the input is kept, with its value, or has exactly one first removed entry on it, never both, and nothing else is kept |
| Scrubber.RemovedIff | learning/anonymizer.py:162-179 | removed and reported are exactly the entries whose name is denied or whose value is a PII string, with no denied name above them |
| Scrubber.ReportsRemoved | learning/anonymizer.py:162-179 | the redaction report is the dotted names of those entries, in order |
| Scrubber.ScrubbedIsClean | learning/anonymizer.py:64-76 | no dict reachable through dict values keeps a denied name or a PII string |
| Scrubber.ScrubIdempotent | learning/anonymizer.py:162-179 | scrubbing again changes nothing and redacts nothing |
| SpineVersion.PathsWalkForward | migration/spine_version.py:122-150 | which paths exist, and that each runs from source to target: one hop where the window reaches, else every release in between, every hop forward and within the window |
| SpineVersion.StepAt | migration/spine_version.py:153-209 | the plan has one step per hop and subsystem, hops in order and subsystems in order within a hop, each to the current version of its subsystem, under its handler |
| SpineVersion.MakePlan | migration/spine_version.py:180-209 | errors as for paths, a no-op for equal versions, otherwise the steps of the path with approval required |
| SpineVersion.Execute | migration/spine_version.py:334-355 | outcomes are a prefix of the plan that ends at the first failure, each what the executor said |
| SpineVersion.Upgrade | migration/spine_version.py:280-359 | refused if and only if there is no path or the plan has steps and was not approved; approval is asked once, before any step, and then exactly the prefix of the plan up to the first failure runs |
| Backlog.WalkKeeps | tools/backlog_to_jira_csv.py:84-138 | every line keeps the invariant that ties current items and both buffers to the lines read so far |
| Backlog.ParseBacklog | tools/backlog_to_jira_csv.py:63-141 | one item per item line in order; fields, defaults, parent and description as the document says; the sprint map from the table rows |
| Backlog.ParentIsEarlier | tools/backlog_to_jira_csv.py:101-132 | a named parent is an earlier item of a higher kind |
| Backlog.StoryFields | tools/backlog_to_jira_csv.py:121-132 | a story keeps its key, body and any known status, priority and size; unknown ones become backlog, none and none |
| Backlog.DescriptionLines | tools/backlog_to_jira_csv.py:74-82 | a description is a text whose lines are the item's texts, one each and in order, stripped |
| Backlog.OwnerUnique | tools/backlog_to_jira_csv.py:134-137 | at most one item owns a line, and one does if and only if some heading stands above it |
| Backlog.TextLands | tools/backlog_to_jira_csv.py:134-141 | an eligible line lands in its owner's description right after the owner's earlier lines, and in no other |
| Backlog.TextComesFrom | tools/backlog_to_jira_csv.py:134-141 | every line of a description is an eligible line of its item, in its place |

## Left out

- Floats and NaN: the JSON parser fails on them and the printer has no case for them.
- The UTF-8 layer: text is a sequence of characters, so `bytes_size` counts characters; lone surrogates do not occur.
- Python limits: recursion depth and the digit limit of `int`.
- Import.ImportState: a `manifest_version` that is a string of digits ends in an uncaught exception here, while `int()` accepts it; and the reported row count is the number of rows handed over, while the code reports what the writer returns.
- Backlog.ParseBacklog: items are values in a list and the current ones are indices, so aliasing of an item object is not captured.
- Tar headers and member times, base64, vault access, key formats, SHA-256 and Ed25519 themselves.
- Values `json.dumps` cannot serialise.
- Hash checks on auxiliary files and roll-back of a partial import: the importer does neither.
- `generated_at`, `bundle_id` and the other report texts beyond what the checks use.
- Federation: timestamps, hub metadata, audit events, the notification of a child, bundle parsing of mandatory classes, the order of `pull_pending`, database failures other than a failing insert, `signature_verifier` (never called).
- Interleavings of two approvals of one row, or of a quota read with a recording: the code does not serialise them.
- Quota: `is_enabled`, `status_snapshot`, the overflow of December 9999, ties in `LIMIT 1` and among rows with one `period_start`.
- Breaker: pid files, signals, the recovery command and notifications; a probe's result is a parameter.
- Learning: SQL, the audit event, text hashing of lessons; which string is PII is a parameter of the scrub, and lists inside a dict are kept as they are, as in the code.
- `anonymize_for_cross_org`: its k-anonymity and synthetic branches only compare a count and fill report fields; Laplace noise is floating point.
- Backlog: the regular expressions (lines come classified), `_summary`, tier text and `strip` (parameters), `enrich`, `apply_filters` and the row renderers, which add only per-item lookups.
- The slug part of `db/dashboard/serve.py`: string clean-up and a counter, which would add only easy members.
- DevOps planes, dashboards, runbooks, and the retired v1-v2 migrator.
