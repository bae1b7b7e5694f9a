# Formal model of the compliance portal

This project models the stateful core of the portal in Dafny and proves properties of it. The
portal keeps its state in PostgreSQL tables; here a table is a map or a sequence, a handler is a
method that updates tables row by row, and each method is proved against a function that says
what the handler does to all tables at once. The main results are lemmas about those functions,
over every run, every interleaving or every input. `dafny verify dfyconfig.toml` checks it all.

## What is modelled

* **Policy lifecycle** (`PolicyStore`, `AuditTrail`, `PolicyProofs`, `PolicyRuns`, `PolicyHandlers`,
  `PolicyFreeze`, `PolicyOverlaps`, `PolicyVersions`, `PolicyContents`, `PolicyPortal`, `PolicyExamples`,
  `BundleBuilder`, `RegoGenerator`, `Semver`): upload, fork,
  generate, edit, review, publish, republish and bundle build over an append-only audit log.
  `PolicyRuns` lets every check, write transaction, query and insert interleave, and traces each
  text in each bundle to an approval of exactly that text. There a write transaction is one step,
  but for a republish, whose unlocked SELECT comes first. `PolicyOverlaps` takes generate
  transactions apart into statements. `PolicyHandlers` takes handlers as atomic steps, which keep
  published policies frozen; `PolicyFreeze` says which interleaved writes do not. `PolicyContents` says
  when each request is accepted and follows its contents, down to the file of a bundle.
* **Remediation** (`Remediation`, `RemediationTransactions`): the four-state workflow, once as
  atomic calls and once as transactions that lock, check, write, record and commit in any
  interleaving; the second refines the first.
* **CVE pipeline** (`NvdParsing`, `CveMerge`, `NvdIngest`, `Classifier`, `Inventory`, `Matcher`,
  `MatchFeed`): windowed ingest and its watermark, the merge of two feeds, the tagger, the
  inventory pull, the match query and the tenant's feed.
* **Accounts** (`Accounts`, `AccountProofs`, `AccountRuns`, `AccountLaws`, `AccountOverlaps`, `AccountService`):
  sessions, second factors, password resets and user administration; `AccountLaws` says
  when each request is accepted and, over runs, which password, token and reset works;
  `AccountOverlaps` splits each request into its checks and its write.
* **Histories** (`KeysetPaging`): cursor paging of bundles and baselines.

`Common` and `Text` hold shared types and string functions.

Parameters of the model: SHA-256 (any function), bcrypt and TOTP checks and the password
strength rule (any predicates), randomly drawn secrets and hashes, ids (fresh), clocks, database
order where no ORDER BY settles it, document parsing, `opa check` and `opa build`, templates, the
LLM, and what NVD, CISA and the bridges answer. Column defaults and unique keys are those of
`api/migrations`.

## Where the code and its documentation disagree

The model follows the code.

* Generating Rego replaces targets by (policy, system, subtype), not by control as the docstring
  says, so a later control's module replaces an earlier one's for the same system, though both are
  counted (`api/src/routers/policies.py:405-416`, `:491-543`): `EachResultHasItsRowIff`,
  `SecondControlReplacesFirst`.
* Generating does not look at the policy's status (`api/src/routers/policies.py:418-434`),
  although a published policy is meant to be immutable (`api/migrations/012_publish_and_bundles.sql:5-9`).
  `PublishedIsFrozen` says that this is the only exception for atomic handlers, `WriteThawsIff` what
  else a check made before the write transaction lets through.
* The DELETE of a generate call is meant to make re-runs idempotent (`api/src/routers/policies.py:493-494`).
  Two such calls that overlap can leave two rows with one key, because the unique index lets null
  subtypes repeat: `DuplicatesIffOvertaken`, `NamedSubtypesNeverDuplicate`.
* The matcher's header promises a vendor and product fallback and a deny list over all candidates
  (`api/src/feeds/matcher.py:4-11`, `:44`). The query compares product names alone (`:153-154`) and
  applies the deny list to vendor tags only (`:68-90`). `FallbackAsDocumentedIff` and `OptOutHidesIff` say
  when this makes a difference.
* The feed's comment says that a shipped item shows the stored `delivered_at`
  (`api/src/routers/portal_feed.py:166-167`), but the value shown comes from a second query: `ListCves`
  says when the two are equal, and `ShownIsNotStored` has a case where they are not.
* Bundle file names join system and subtype with an underscore (`api/src/core/bundle_builder.py:141-150`),
  so two targets of one policy can share a file: `BundleKeepsEveryFileIff`, `BundleOverwrites`.

One path is left open on purpose: disabling leaves a tenant an active owner, and a change of role
does not have to (`api/src/routers/tenant_users.py:204-206`): `OwnerlessOnlyByDemotion`.

## Model

| member | source | states |
|---|---|---|
| PolicyRuns.BundleProvenance | api/src/routers/policies.py:1034-1181 | In every run in which checks, bundle queries, bundle inserts, the copying of a republish and its commit, and other write transactions taken whole interleave at will, each text in each bundle has the hash of an approval in the audit log, for a target listed in the bundle or the ancestor it was copied from, with no edit, rejection or newer approval on that chain up to the bundle's query |
| PolicyRuns.ApprovedIffAudited | api/src/routers/policies.py:1142-1181 | In every such run (write transactions whole, except that a republish copies first and commits later) a target is approved if and only if the append-only log holds a standing approval of exactly its current hash |
| AuditTrail.VerdictIsStandingApproval | api/src/routers/policies.py:1154-1173 | The verdict read off the log is a hash if and only if some approval of that hash is the last review or edit along the copy chain |
| PolicyRuns.RunKeepsInv | api/src/routers/policies.py:477-523 | Every such run, with each generate transaction taken whole, keeps: one target per (policy, system, subtype-or-empty), storage keys that resolve to an unchanged artifact with the row's hash, reviews that agree with the log, and traced bundles, builds and copies in progress; PolicyOverlaps says what becomes of the first when generate transactions overlap |
| PolicyProofs.CopiesKeepSound | api/src/routers/policies.py:1373-1408 | Whatever committed between the unlocked SELECT of a republish and its commit, the republish keeps the table invariant |
| PolicyOverlaps.DuplicatesIffOvertaken | api/src/routers/policies.py:495-523 | From any rows, statement by statement, with row locks, snapshots and the unique index: where there are no duplicates, a generate transaction's commit makes two rows with one key if and only if another has committed a row with one of its keys since its DELETE for that key looked |
| PolicyOverlaps.NamedSubtypesNeverDuplicate | api/src/routers/policies.py:495-523 | When no subtype, there or generated, is null, the unique index rules duplicates out however transactions overlap |
| PolicyOverlaps.OverlapDuplicates | api/migrations/006_policy_ingestion.sql:141-156 | A run of two overlapping generate transactions with a null subtype that ends with two rows for one key |
| PolicyOverlaps.RunKeepsInv | api/src/routers/policies.py:491-523 | Over every run of overlapping statements: no two committed rows clash in the unique index, no two transactions delete one row, and a transaction overlooks exactly the rows committed since it looked |
| PolicyRuns.CommitExtends | api/src/core/bundle_store.py:115-145 | No write transaction changes or removes an artifact, an audit row, a copy link or a bundle |
| PolicyRuns.AtomicBuild | api/src/core/bundle_builder.py:83-154 | An atomic build ships exactly the approved targets of published policies: the two artifact exclusions cannot occur, counts and policy ids are exact and distinct, and exactly the shipped rows get the bundle's hash |
| PolicyRuns.PlainBundlesKeepEveryFile | api/src/core/bundle_builder.py:137-154 | When system names hold no underscore, no file of an atomic build overwrites another and each approved text is in its own file |
| PolicyRuns.BundleKeepsEveryFileIff | api/src/core/bundle_builder.py:137-154 | An atomic build writes as many files as it counts targets if and only if the approved rows' paths differ, and then each text is in its own file |
| PolicyExamples.BundleOverwrites | api/src/core/bundle_builder.py:141-150 | A run from the empty tables whose build counts two approved targets, of one system name with an underscore and one with a subtype, and writes one file |
| BundleBuilder.BuildConserves | api/src/core/bundle_builder.py:107-194 | For any rows and any store, target_count is the number of files written and shipped plus excluded is all rows read |
| BundleBuilder.NoOverwriteIff | api/src/core/bundle_builder.py:141-150 | A bundle has as many files as shipped rows if and only if no two shipped rows have the same path |
| BundleBuilder.PathWritten | api/src/core/bundle_builder.py:141-150 | A path is in the bundle if and only if a shipped row has it, and it then holds such a row's text |
| BundleBuilder.FileNamesCollide | api/src/core/bundle_builder.py:141-150 | Two different target keys with one file name: distinct keys alone do not prevent overwriting |
| BundleBuilder.PlainSystemsDoNotCollide | api/src/core/bundle_builder.py:141-150 | Without an underscore in the system name the file name determines the target key |
| PolicyHandlers.PublishedIsFrozen | api/src/routers/policies.py:906-932 | An accepted call leaves a published policy and its targets unchanged (bundle stamps apart) if and only if it is not a generate call on that policy that generates something |
| PolicyHandlers.PublishedStaysFrozen | api/src/routers/policies.py:584-674 | Over any run of atomic handlers that does not regenerate it, a published policy and its targets stay as they are |
| PolicyHandlers.LateEditThaws | api/src/routers/policies.py:1034-1067 | An edit whose check precedes a publish and whose write follows it changes the published policy |
| PolicyFreeze.WriteThawsIff | api/src/routers/policies.py:1034-1113 | A write transaction, whatever its handler checked and when, leaves a published policy and its targets alone if and only if it is not a generate on that policy that generates something, an edit of one of its targets, an approval of one not yet approved, or a rejection of one not yet rejected |
| PolicyFreeze.FrozenUntilThawed | api/src/routers/policies.py:906-932 | From any moment of any interleaved run at which a policy is published, it and its targets stay as they are up to the first such write, and that write changes them |
| PolicyExamples.RegeneratingThaws | api/src/routers/policies.py:418-434 | A run from the empty tables that publishes a policy and then changes it by generating again |
| PolicyExamples.LateEditHappens | api/src/routers/policies.py:1034-1067 | A run from the empty tables in which an edit passes its check, the policy is published, and the edit's write changes it |
| PolicyContents.EditStores | api/src/routers/policies.py:1016-1110 | After an accepted edit the target's key leads to the text that was sent, under that text's hash and for a new review, and the audit row has that hash and the old one; no other target changes |
| PolicyContents.EditedTextShips | api/src/core/bundle_builder.py:83-154 | From an edit to a bundle: whatever else runs, short of another edit of the target or a regeneration of its policy, a later build with distinct paths ships the target if and only if it is approved and published, and its file is then the text that was sent |
| PolicyContents.ForkStores | api/src/routers/policies.py:712-801 | A fork makes a draft with exactly one target, whose text is the forked one, pending under its hash, and its audit row |
| PolicyContents.UploadStores | api/src/routers/policies.py:105-209 | An upload of at least one byte stores the extracted text under the hash of the raw bytes, in a draft without targets |
| PolicyContents.ExtractStoresIff | api/src/routers/policies.py:277-397 | An IR is stored if and only if the policy is a visible prose upload whose bytes exist and, if published, has that IR already; it changes that field alone |
| PolicyContents.ReviewIff | api/src/routers/policies.py:1123-1259 | A review is recorded if and only if the target is one of a visible, unpublished policy and, for a rejection, the reason has a character that is not white space; it changes that target's review alone and is logged with the row's hash |
| PolicyContents.GenerateAndEditIff | api/src/routers/policies.py:418-434 | A generate call needs a visible policy with an IR and nothing else; an edit needs a target of a visible, unpublished policy and a passed check |
| PolicyContents.PublishIff | api/src/routers/policies.py:603-667 | A publish is accepted if and only if the policy is visible, not published, and has an approved target; it changes status and publisher alone and logs the number of approved targets |
| PolicyContents.NamedRepublishIff | api/src/routers/policies.py:1302-1335 | A republish under a given version is accepted if and only if the policy is visible and published and no policy of its name has the version, stripped of white space; the child has that version |
| PolicyContents.EmptyVersionIsNone | api/src/routers/policies.py:1309-1312 | An empty version is the same request as none |
| PolicyContents.RepublishCopiesAll | api/src/routers/policies.py:1338-1408 | The child has one unshipped copy of each of its parent's targets, key, hash and review included, and no other target; the rest of its row is the parent's, as a draft |
| PolicyContents.RepublishAudited | api/src/routers/policies.py:1391-1410 | The audit row of a republish names the parent, both versions and the number of targets copied |
| PolicyContents.BuildRecorded | api/src/routers/bundles.py:106-176 | A build adds one bundle and one audit row, with its hash and the numbers of targets shipped and left out |
| PolicyContents.RunKeepsContent | api/src/routers/policies.py:1034-1110 | Over any run that neither edits the target nor regenerates its policy, the target keeps its label, its key and the text behind it |
| PolicyContents.Refusals | api/src/routers/policies.py:906-932 | The error of every refused request about a policy: the request's own fault, then the policy's visibility and status, then the target or the version |
| PolicyContents.TenantsAreIsolated | api/src/routers/policies.py:906-932 | No accepted request changes any row of another tenant's policy |
| PolicyContents.OneAuditRow | api/src/routers/policies.py:1154-1173 | Every accepted request appends exactly one audit row, in its caller's name |
| PolicyHandlers.HandlerIsGuardedWrite | api/src/routers/policies.py:906-932 | Every accepted handler call but a build is one of the transactions of the interleaved runs |
| PolicyHandlers.HandlerIsGuardedBuild | api/src/routers/bundles.py:72-176 | An accepted build is a query step and a finish step of the interleaved runs with nothing in between |
| PolicyHandlers.HandleKeepsSound | api/src/routers/policies.py:1016-1120 | Every accepted handler call keeps the table invariant |
| PolicyVersions.GenerateLeavesLast | api/src/routers/policies.py:477-523 | After a generate call a target's row for a generated key is the last result for that key, with its text, hash, route, confidence and review, and a row for any other key is the old one |
| PolicyVersions.GenerateKeepsTheRest | api/src/routers/policies.py:491-505 | A generate call keeps every row whose key it did not generate, of any policy, and leaves a row for every key it did |
| PolicyVersions.GenerateKeysIff | api/src/routers/policies.py:491-523 | After a generate call the policy has a key if and only if it was generated or was there before |
| PolicyVersions.GenerateIsCounted | api/src/routers/policies.py:545-567 | The audit row of a generate call counts its results, those that passed their check and those that did not |
| PolicyVersions.EachResultHasItsRowIff | api/src/routers/policies.py:491-567 | A generate call leaves as many new rows as it has results, which is what its audit row counts, if and only if no two results have one (system, subtype-or-empty) key; otherwise fewer |
| PolicyExamples.SecondControlReplacesFirst | api/src/routers/policies.py:495-523 | A run from the empty tables in which the modules of two controls for one system pass their checks, one row is left, and the audit row counts two |
| PolicyVersions.VersionStays | api/src/routers/policies.py:1302-1388 | No run of handlers changes an existing policy's tenant, name or version |
| PolicyVersions.AutoRepublishIff | api/src/routers/policies.py:1302-1335 | A republish of a published policy that names no version is accepted if and only if the parent's version parses and the next patch is not taken |
| PolicyVersions.AutoRepublish | api/src/routers/policies.py:1302-1388 | It then makes a draft of the same name whose version parses to the next patch and was free |
| PolicyVersions.RepublishChain | api/src/routers/policies.py:1302-1388 | Along any chain of automatic republish steps with other requests in between, each version parses, keeps the prefix, and the patch has gone up by the length of the chain |
| Semver.PrintParses | api/src/core/semver_util.py:10-21 | Printing a version and parsing it gives it back |
| Semver.ParsesExactly | api/src/core/semver_util.py:10-15 | Which texts parse, white space around them aside, and to what version: perhaps a v and three numerals between dots |
| Semver.BumpRaisesPatch | api/src/core/semver_util.py:16-21 | A bump succeeds if and only if the text parses, and its result parses to the same version with the patch one higher |
| Semver.BumpChain | api/src/core/semver_util.py:16-21 | n bumps from any parseable version never get stuck and raise the patch by n |
| PolicyPortal.ReadCapped | api/src/routers/policies.py:117-133 | The chunked read returns the file if it fits under the cap and refuses it otherwise |
| PolicyPortal.Portal.Upload | api/src/routers/policies.py:105-209 | The upload with its early and in-loop caps, empty-file and parser errors, and on success its whole new state |
| PolicyPortal.Portal.Generate | api/src/routers/policies.py:418-556 | The put, delete and insert loop equals the transaction for the whole generated list; invariant kept |
| PolicyPortal.Portal.Edit | api/src/routers/policies.py:1034-1113 | New artifact with the text, key, hash and pending review, by the transaction that EditStores speaks of, or the source's error and no write |
| PolicyPortal.Portal.Approve | api/src/routers/policies.py:1133-1181 | Approval recorded with the row's current hash, or the source's error and no write |
| PolicyPortal.Portal.Reject | api/src/routers/policies.py:1202-1259 | Rejection with a reason that is not blank, or the source's error and no write |
| PolicyPortal.Portal.Publish | api/src/routers/policies.py:603-667 | Published only from another status and with an approved target; whole new state |
| PolicyPortal.Portal.Republish | api/src/routers/policies.py:1284-1415 | The child policy, the copied targets with their artifacts and reviews, the version choice and every refusal |
| PolicyPortal.Portal.BuildBundle | api/src/routers/bundles.py:72-176 | The query, partition, file loop, insert and stamping equal the build's transaction |
| RegoGenerator.GenerateTargets | api/src/core/rego_generator.py:92-166 | Every generated target is what its route promises: template output, or LLM output that is pending only if it passed opa check; it fails exactly if the LLM gives no text for a system without a template |
| RegoGenerator.GenerateViaLlm | api/src/core/rego_generator.py:237-312 | One first attempt and at most one repair; a failed result is marked rejected |
| PolicyPortal.Portal.Fork | api/src/routers/policies.py:712-801 | The new policy, its artifact and one pending customer-authored target, in one transaction |
| PolicyPortal.Portal.Extract | api/src/routers/policies.py:277-397 | The IR is stored only for a prose upload whose bytes exist, and a published policy's IR is not changed |
| RemediationTransactions.Serializable | api/src/routers/remediation.py:168-193 | Any interleaving of any number of lock, check, write, record, commit or abort steps leaves the items and history of the committed calls run one at a time in commit order |
| RemediationTransactions.InterleavedHistoriesExplain | api/src/routers/remediation.py:340-548 | In every interleaved run each item's history is a path of the transition graph that explains its status, submitter and approver |
| RemediationTransactions.InterleavedAssignments | api/src/routers/remediation.py:359-369 | In every interleaved run an item is assigned to a user if and only if it was before or a committed call assigned it to that user, who is of its tenant; it is unassigned exactly while open |
| RemediationTransactions.UnlockedReadsAreNotSerializable | api/src/routers/remediation.py:168-193 | If the row were read without the lock, two submits of one item could both commit, which no serial order allows |
| Remediation.ExecuteKeepsConsistent | api/src/routers/remediation.py:409-547 | Each transition keeps: history is a path ending at the status; submits equal rejects plus one exactly when pending or approved; requested_approval_by is then the last submitter; every verdict is by someone else than its submit |
| Remediation.InsertKeepsConsistent | api/src/routers/remediation.py:286-322 | A created item is explained by its creation entry, and other items keep their explanation |
| Remediation.CallDoesWhatItSays | api/src/routers/remediation.py:359-382 | What one accepted call does, field by field: it moves its own item alone, assigns it only if it is an assignment and then to the user it names, who is of the tenant, stamps the times, and records status, actor and notes in one entry |
| Remediation.CreateDoesWhatItSays | api/src/routers/remediation.py:286-322 | A created item is an open, unassigned one of the caller's tenant with the origin given; every other row stays |
| Remediation.AcceptedByHistory | api/src/routers/remediation.py:329-548 | The history alone tells which call is accepted: a fresh item can be assigned within its tenant, an assigned or rejected one submitted, a submitted one decided by anyone but its submitter, with the length rules for notes and reasons |
| Remediation.Refusals | api/src/routers/remediation.py:168-193 | The error of every refused call, the request's form before the item's visibility before its state before who asks |
| Remediation.RemediationService.AssignItem | api/src/routers/remediation.py:329-382 | Assign against the specification that CallDoesWhatItSays speaks of: new row, one history entry, or the error and no change |
| Remediation.RemediationService.SubmitItem | api/src/routers/remediation.py:390-433 | Submit, likewise, with the request model's refusal of over-long notes |
| Remediation.RemediationService.ApproveItem | api/src/routers/remediation.py:441-491 | Approve, likewise, with the four-eyes refusal |
| Remediation.RemediationService.RejectItem | api/src/routers/remediation.py:499-548 | Reject, likewise, with the four-eyes refusal and the request model's of an empty or over-long reason |
| Remediation.RemediationService.CreateItem | api/src/routers/remediation.py:286-322 | A new open item and its creation entry |
| CveMerge.InterleavingsAgree | api/src/feeds/nvd.py:178-196 | Every two interleavings of the same NVD and KEV streams end in the same CVE and reference tables, from any tables |
| CveMerge.UpsertsCommute | api/src/feeds/cisa_kev.py:56-69 | An NVD and a KEV upsert commute on every table, whether or not the record exists |
| CveMerge.FieldIsDecided | api/src/feeds/nvd.py:178-196 | Vendor, product, description, severity, both scores, both dates and the CPEs of a record are set exactly when some upsert gave them, and are the last value that NVD gave (of the CPEs, the last list that is not empty); KEV decides only the first three, and only where NVD gave none, by its first value |
| CveMerge.LastItemDecides | api/src/feeds/cisa_kev.py:56-69 | KEV's dates, action, ransomware flag and raw item are those of the last KEV item about the CVE, and absent without one; NVD's raw item is that of NVD's last |
| CveMerge.FirstReferenceWins | api/src/feeds/nvd.py:205-219 | A stored reference never changes, a new one is that of the first entry with its URL, and no other CVE's references change |
| CveMerge.SourcesAreTheReporters | api/src/feeds/cisa_kev.py:56-69 | A record's sources name exactly the feeds that reported it, and it is a KEV member exactly if KEV did |
| CveMerge.RetriesAreHarmless | api/src/feeds/nvd.py:154-223 | Any number of partial attempts before a full one, with KEV upserts anywhere in between, leaves the CVE and reference tables of one full attempt |
| CveMerge.ManyAhead | api/src/feeds/nvd.py:171-204 | Items of a sequence may be upserted beforehand in any order, any number of times, without changing the CVE table that the sequence leaves |
| CveMerge.CveTables.UpsertCve | api/src/feeds/nvd.py:154-223 | The record and its references against the specification, whose fields FieldIsDecided tells; added and updated tell which |
| CveMerge.CveTables.UpsertKevItem | api/src/feeds/cisa_kev.py:42-84 | The record against the specification; added and updated tell which |
| CveMerge.CveTables.UpsertPage | api/src/feeds/nvd.py:251-258 | Rows added is the growth of the table, and added plus updated the items with an id |
| CveMerge.CveTables.UpsertCatalog | api/src/feeds/cisa_kev.py:104-113 | The same counts for the KEV catalog |
| NvdParsing.ExtractCpes | api/src/feeds/nvd.py:84-92 | The nested loops give the vulnerable criteria, deduplicated |
| NvdParsing.AllCpesIff | api/src/feeds/nvd.py:84-92 | A criterion is collected if and only if a match in some node of some configuration is vulnerable and has it |
| NvdParsing.AllCpesInOrder | api/src/feeds/nvd.py:84-92 | What is collected from two lists of configurations together is what is collected from each, in that order |
| NvdParsing.NodesInOrder | api/src/feeds/nvd.py:84-92 | The same for the nodes of a configuration |
| NvdParsing.DedupeOrder | api/src/feeds/nvd.py:92 | Deduplication keeps each string once, in order of first occurrence |
| NvdParsing.VendorProductFromCpes | api/src/feeds/nvd.py:102-112 | The names of the first usable CPE, or neither if there is none |
| NvdParsing.CpeNamesItsVendor | api/src/feeds/nvd.py:105-108 | A CPE 2.3 name whose fields hold no colon gives its vendor and product back |
| NvdParsing.FirstEnglish | api/src/feeds/nvd.py:95-99 | The description is that of the first English entry, even if it has no text, or none |
| NvdParsing.CvssReads | api/src/feeds/nvd.py:62-81 | Score and severity are those of the first primary metric, or the first if none is, of CVSS 3.1 if it has any and else of 3.0; a severity that is not given is the score's band |
| NvdIngest.WindowsSpan | api/src/feeds/nvd.py:57-59 | As sent, truncated to seconds, the windows are contiguous, each at most 119 days, from the watermark to now |
| NvdIngest.WindowOf | api/src/feeds/nvd.py:244-246 | Every instant in between is in exactly one window as sent |
| NvdIngest.NoGap | api/src/feeds/common.py:64-77 | Over any series of successful, failed and crashed runs that do not overlap, every instant between the ends of two successes was asked for by a successful run between them |
| NvdIngest.NoOverlap | api/src/feeds/common.py:64-77 | If the clock never ran backwards, no instant is asked for by two successful runs |
| NvdIngest.SuccessFollowsSuccess | api/src/feeds/common.py:64-77 | A successful run begins where the success before it ended |
| NvdIngest.CompleteUnlessStarved | api/src/feeds/nvd.py:131-151 | Against a server with an honest total, paging collects the whole list in order if and only if no page comes back empty before the end |
| NvdIngest.EagerServerIsComplete | api/src/feeds/nvd.py:131-151 | A server that always returns some of what remains delivers everything |
| NvdIngest.CollectsPrefix | api/src/feeds/nvd.py:131-151 | Whatever total the server claims, what is collected is a prefix of its list, without holes |
| NvdIngest.FailedRunIsRepaired | api/src/feeds/nvd.py:243-301 | A failed run followed by a successful one from the same watermark leaves the tables of the successful one alone, while the server answers alike |
| NvdIngest.NvdFeed.FetchWindow | api/src/feeds/nvd.py:125-151 | The paging loop ends and collects exactly the specified list |
| NvdIngest.NvdFeed.Ingest | api/src/feeds/nvd.py:226-301 | Windows asked for in order; the watermark moves to now only if all went through; at the first fetch or database failure the earlier windows' upserts stay, the broken window's do not, and the log counts exactly what was seen and added, including what was rolled back |
| NvdIngest.NvdFeed.IngestWindow | api/src/feeds/nvd.py:246-258 | One window in one transaction: all its upserts, or none of them and the counts of those before the error |
| NvdIngest.NvdFeed.LatestCursor | api/src/feeds/common.py:64-77 | The watermark of a most recently started successful run, or none if there is none |
| Classifier.ClassifyByTag | api/src/feeds/classifier.py:54-124 | Every tag after a run: existing tags unchanged, alias match before CPE match, buckets from whatever vendors the CVE then has |
| Classifier.NewTagsAreEarned | api/src/feeds/classifier.py:54-124 | A run adds a vendor tag exactly for a CVE in scope whose vendor is an alias of an active vendor (at 90) or whose CPEs name one of its keys (at 80), and a bucket tag (at 75) exactly for a CVE in scope with a vendor linked to an active bucket; no tag that was there changes |
| Classifier.ClassifyUnion | api/src/feeds/classifier.py:54-124 | Classifying A and then B is classifying their union once, tags, confidences and origins alike |
| Classifier.ClassifyAgain | api/src/feeds/classifier.py:54-124 | Classifying CVEs already classified changes nothing |
| Classifier.OperatorTagsSurvive | api/src/routers/classification.py:128-193 | An operator's tag survives any run of classifications, with changing taxonomies, and of other overrides, short of its own removal |
| Classifier.RemovalIsForgotten | api/src/routers/classification.py:183-193 | A removed vendor tag returns at the next run if and only if the CVE still matches |
| Classifier.TagStore.ClassifyRecent | api/src/feeds/classifier.py:54-133 | The three insert passes against the specification, and the returned counts as the growth of the tables |
| Classifier.TagStore.TagVendorByOperator | api/src/routers/classification.py:162-180 | The operator's tag replaces whatever tag was there; 404 and no change for an unknown vendor |
| Classifier.TagStore.UntagVendorByOperator | api/src/routers/classification.py:183-193 | The tag is gone; 404 and no change for an unknown vendor |
| Classifier.TagStore.TagBucketByOperator | api/src/routers/classification.py:128-146 | The same for buckets |
| Classifier.TagStore.UntagBucketByOperator | api/src/routers/classification.py:149-159 | The same for buckets |
| Matcher.QueryDecides | api/src/feeds/matcher.py:48-177 | The query emits a row if and only if the direct decision for its CVE makes that row |
| Matcher.MatchedIff | api/src/feeds/matcher.py:48-177 | In terms of the tables: the query emits a CVE if and only if it is known, concerns the tenant by an enrolled bucket or a vendor it hears about, is a KEV member the tenant wants regardless or has a severity (NONE if absent) that ranks at the threshold or above, and is in the inventory by CPE or product or the tenant takes tag-only matches |
| Matcher.RowHolds | api/src/feeds/matcher.py:124-177 | What an emitted row holds: the CVE's severity and KEV flag, exactly the tags that concern the tenant, how it was found, and the number and names of exactly the stock rows that the CPE, or else the product, joins |
| Matcher.OneRowPerCve | api/src/feeds/matcher.py:124-177 | At most one row per CVE |
| Matcher.NoHitsMeansTagOnly | api/src/feeds/matcher.py:124-173 | inventory_hits is 0, and the list of products empty, exactly for tag_only rows |
| Matcher.NoDeniedVendor | api/src/feeds/matcher.py:76-90 | Every matched vendor is tagged on the CVE and allowed, or unsubscribed and linked to an enrolled bucket |
| Matcher.OptOutHidesIff | api/src/feeds/matcher.py:68-90 | Opting out of vendors hides a matched CVE if and only if no enrolled bucket brings it in and no other matched vendor is left; otherwise its row stays as it was, minus those vendors |
| Matcher.OptOutIsPassedOver | api/src/feeds/matcher.py:68-90 | A matched CVE that stays matched after its only matched vendor is opted out of |
| Matcher.VendorNamesDoNotMatter | api/src/feeds/matcher.py:146-161 | Renaming every vendor of the inventory changes no match except its list of products |
| Matcher.FallbackAsDocumentedIff | api/src/feeds/matcher.py:141-172 | The decision is the documented one, with vendor and product compared, if and only if the CVE does not pass the filters, a CPE matches, or no stock of that product name is another vendor's |
| Matcher.FallbackMatchesAnotherVendor | api/src/feeds/matcher.py:153-154 | A CVE matched by another vendor's product of the same name, which the documented rule would not match |
| Matcher.SeverityFiltersAgree | api/src/feeds/matcher.py:31-33 | The Python helper, which nothing calls, and the query's filter agree if and only if the severity is absent, is one of the five names as spelled, is such a name in another case and ranks below the threshold, or is other text and the threshold is not NONE |
| MatchFeed.RunKeepsStamps | api/src/routers/portal_feed.py:153-233 | Over any run of match, list, acknowledge and suppress steps no match row goes away and no stamp changes once set |
| MatchFeed.StampsHaveCauses | api/src/routers/portal_feed.py:153-233 | From the empty table every stamp was made by a request of the row's own tenant, of the stamp's own kind, at its time |
| MatchFeed.RematchIsIdempotent | api/src/feeds/matcher.py:178-206 | Matching again with nothing changed adds no row and changes matched_at alone |
| MatchFeed.RematchWritesEmitted | api/src/feeds/matcher.py:178-239 | A match run stores each emitted row at its time, new rows without stamps, and changes no other row |
| MatchFeed.RequestsTouchOneRow | api/src/routers/portal_feed.py:199-233 | What acknowledging and suppressing do to the row they name, and that they touch no other |
| MatchFeed.ListedIff | api/src/routers/portal_feed.py:75-88 | A match is listed if and only if it meets each filter that was given and is neither acknowledged nor suppressed, unless such are asked for |
| MatchFeed.AcknowledgedLeavesTheFeed | api/src/routers/portal_feed.py:85-88 | Once acknowledged or suppressed, a match is in no later default listing, whatever runs in between |
| MatchFeed.ListedInOrder | api/src/routers/portal_feed.py:144-149 | KEV members first, then the newest, each once |
| MatchFeed.PagesJoin | api/src/routers/portal_feed.py:143-184 | Following the cursors over a listing that stays, the pages together are the listing, none longer than the limit |
| MatchFeed.Feed.MatchTenant | api/src/feeds/matcher.py:178-239 | The upserts of the emitted rows, which MatchedIff and RowHolds tell, and the counts of added and updated rows |
| MatchFeed.Feed.ListCves | api/src/routers/portal_feed.py:96-184 | The page, its next cursor, the stamping, and when the shown stamp is the stored one |
| MatchFeed.ShownIsNotStored | api/src/routers/portal_feed.py:166-175 | A delivery whose item shows another stamp than the table holds |
| MatchFeed.Feed.AcknowledgeCve | api/src/routers/portal_feed.py:199-213 | Stamped if it was not; 404 and no change for an unknown match |
| MatchFeed.Feed.SuppressCve | api/src/routers/portal_feed.py:217-233 | Stamped if it was not; an empty reason keeps the old one |
| Inventory.CatalogReflectsRows | api/src/feeds/inventory_puller.py:109-150 | A tenant's new catalog has exactly the keys of the pulled usable rows, with the details of the last one; other tenants keep theirs |
| Inventory.KeysByField | api/src/feeds/inventory_puller.py:109-150 | Which rows are usable, under which key with which defaults, and with which details |
| Inventory.OldCatalogDoesNotMatter | api/src/feeds/inventory_puller.py:129-150 | The new catalog does not depend on the old one |
| Inventory.PullIsBounded | api/src/feeds/inventory_puller.py:189-206 | A pull exceeds 250 000 rows by at most one page |
| Inventory.ListIsPulled | api/src/feeds/inventory_puller.py:186-206 | From a bridge that serves a list within the limit, page by page, the pull has the whole list in order |
| Inventory.Puller.PullRows | api/src/feeds/inventory_puller.py:186-206 | The paging loop ends against every bridge, with exactly the specified rows |
| Inventory.Puller.ReplaceTenantCatalog | api/src/feeds/inventory_puller.py:85-150 | Delete, then upsert in order, equals the specified catalog; the count returned is that of the usable rows, duplicates included |
| Inventory.Puller.PullOneTenant | api/src/feeds/inventory_puller.py:186-239 | A failed pull leaves the catalog alone; a successful one replaces it |
| AccountProofs.FactorsAndResetsAgree | api/src/routers/me_mfa.py:80-224 | After any run of atomic requests a user has at most one unrevoked TOTP, mfa_enrolled exactly when a confirmed one exists, and at most one unused reset token |
| AccountProofs.HandleKeepsInv | api/src/routers/me_mfa.py:149-179 | Each accepted request keeps that invariant |
| AccountRuns.BackupCodesAreSingleUse | api/src/routers/auth.py:234-264 | Over any run of atomic requests no backup code is accepted twice |
| AccountRuns.VerifiedForAReason | api/src/routers/auth.py:91-98 | After any run of atomic requests a session is mfa_verified only because it came from an accepted login of a user not held to MFA, or a factor was accepted for it |
| AccountRuns.MfaGateIsEarned | api/src/core/sessions.py:237-257 | Whoever passes the MFA gate is not held to MFA or has a session verified for such a reason |
| AccountRuns.ResetTokensAreSingleUse | api/src/routers/auth.py:159-198 | Over any run of atomic requests no reset token is redeemed twice |
| AccountRuns.IssuingKillsOlderTokens | api/src/routers/tenant_users.py:314-336 | Issuing a reset makes every earlier token of the user unredeemable for ever |
| AccountRuns.RedemptionEndsSessions | api/src/routers/auth.py:175-198 | After a redemption every earlier session of the user is rejected in all later states |
| AccountRuns.RevokedForEver | api/src/core/sessions.py:172-185 | A revoked session is never accepted again |
| AccountRuns.SetPasswordSparesTheCaller | api/src/routers/me.py:78-101 | A password change rejects exactly the user's other sessions; every other token resolves as before |
| AccountRuns.DisableThenEnable | api/src/routers/tenant_users.py:198-284 | A disabled user's sessions are all rejected; enabling the user restores every table |
| AccountRuns.OwnerlessOnlyByDemotion | api/src/routers/tenant_users.py:204-234 | An accepted request takes a tenant's last active owner away if and only if it demotes that owner |
| AccountRuns.DemotionLeavesNoOwner | api/src/routers/tenant_users.py:161-190 | A run from the empty tables after which a change of role leaves the tenant without an active owner |
| AccountRuns.BeforeGrows | api/src/core/sessions.py:93-121 | Over any run rows stay, and revocation, use and the MFA requirement are for good |
| AccountLaws.LoginIff | api/src/routers/auth.py:58-98 | A login is accepted if and only if the tenant has an active user of that address, whatever its case, with a password that fits the stored hash; it then adds exactly one session of that user |
| AccountLaws.UsersAreAsLastSet | api/src/routers/auth.py:184-198 | After any run a user's stored hash is the one set last by a password change or reset of that user, none if there was none, and the user is disabled if and only if the last switch was to disable |
| AccountLaws.LoginAsLastSet | api/src/routers/auth.py:58-98 | After any run a login is accepted if and only if it fits the hash last set for a user of that address who was not left disabled |
| AccountLaws.NewPasswordLogsIn | api/src/routers/me.py:78-101 | From a password change or reset until the user's next one, an active user logs in with exactly what fits the new hash |
| AccountLaws.ResolveIff | api/src/core/sessions.py:144-185 | A token opens a session if and only if it names it and fits it, and the session is neither revoked nor expired and its user not disabled |
| AccountLaws.SessionOpensIff | api/src/core/sessions.py:144-185 | At every later moment of any run the session of an accepted login opens exactly for its secret, within its lifetime, while its user is not disabled and no logout, password change or reset that concerns it has come in between |
| AccountLaws.RedeemIff | api/src/routers/auth.py:140-198 | A reset is redeemed if and only if the new password is strong and the token fits an unused reset in time |
| AccountLaws.ResetRedeemableIff | api/src/routers/auth.py:159-183 | At every later moment of any run an issued reset can be redeemed exactly with a strong password and its secret, within its lifetime, if it was not redeemed and the user was issued no other in between |
| AccountLaws.SetPasswordIff | api/src/routers/me.py:55-101 | A password change is accepted if and only if a session opens, the new password is strong and the current one fits |
| AccountLaws.VerifyIff | api/src/routers/auth.py:203-284 | On an unverified session of a user held to MFA a verification is accepted if and only if the code fits one of the user's factors; it verifies that session alone and revokes the factor if it is a backup code |
| AccountLaws.SetupIff | api/src/routers/me_mfa.py:74-108 | A TOTP is set up if and only if the user has no unrevoked one, pending and with the given secret |
| AccountLaws.ConfirmIff | api/src/routers/me_mfa.py:119-179 | A TOTP is confirmed if and only if it is the user's own, pending, unrevoked, and the code fits; then exactly the given backup codes are added and every other factor stays |
| AccountLaws.RevokeIff | api/src/routers/me_mfa.py:185-224 | A factor is revoked if and only if it is the caller's own and unrevoked, and no other with it |
| AccountLaws.NoSessionNoRequest | api/src/core/sessions.py:144-185 | Without a session that opens, every request of a logged-in user is a 401 |
| AccountLaws.AdminIff | api/src/routers/tenant_users.py:149-336 | When updates, disabling, enabling and resets by an administrator are accepted, in terms of the user's row and the other owners, and what becomes of the row |
| AccountLaws.CreateIff | api/src/routers/tenant_users.py:46-90 | A user is created if and only if the tenant is live and the address, whatever its case, is free; without a password, held to MFA unless a viewer |
| AccountLaws.OwnRefusals | api/src/routers/me_mfa.py:119-179 | The error of every refused request whose session opens |
| AccountLaws.OtherRefusals | api/src/routers/tenant_users.py:149-336 | The error of every other refused request |
| AccountLaws.WritersAlwaysNeedMfa | api/src/routers/tenant_users.py:149-190 | After any run owners and editors are held to MFA |
| AccountOverlaps.AppliesPlanned | api/src/routers/auth.py:159-198 | A request's checks followed at once by its write are the atomic request |
| AccountOverlaps.RunGrows | api/src/core/sessions.py:93-121 | Over any interleaving of checks and writes rows stay, and revocation, use and the MFA requirement are for good |
| AccountOverlaps.RevokedForEver | api/src/core/sessions.py:172-185 | However checks and writes interleave, a revoked session is never accepted again |
| AccountOverlaps.RedemptionEndsSessions | api/src/routers/auth.py:175-198 | However they interleave, when a redemption commits, every session that the user then has is rejected in all later states |
| AccountOverlaps.SpentTwiceIffOverlapped | api/src/routers/auth.py:159-198 | A request about to commit spends a reset token or backup code that was spent before if and only if another request has spent it since the first was checked |
| AccountOverlaps.OverlapSpendsTwice | api/src/routers/auth.py:159-183 | A run from the empty tables in which two redemptions of one token are checked before either writes, and both commit |
| AccountService.AccountTables.ResolveBearer | api/src/core/sessions.py:144-185 | The session that a token names, or 401 for each of the source's reasons |
| AccountService.AccountTables.Login | api/src/routers/auth.py:58-98 | The session of the accepted request that LoginIff speaks of, verified exactly when MFA is not required; one error for every bad input |
| AccountService.AccountTables.SetUpTotp | api/src/routers/me_mfa.py:74-108 | A pending factor, or a conflict while any unrevoked TOTP exists |
| AccountService.AccountTables.ConfirmTotp | api/src/routers/me_mfa.py:119-179 | Factor, flag and backup rows change together, or the source's error and no write |
| AccountService.AccountTables.Revoke | api/src/routers/me_mfa.py:185-224 | The factor goes, and the flag with it when no confirmed TOTP is left |
| AccountService.AccountTables.VerifyTotp | api/src/routers/auth.py:203-284 | TOTP first, then the scan of backup rows in any order; the code found is burned |
| AccountService.AccountTables.ChangePassword | api/src/routers/me.py:55-101 | Checks in the source's order; new hash, other sessions revoked |
| AccountService.AccountTables.ConfirmPasswordReset | api/src/routers/auth.py:140-198 | Checks in the source's order; token used, hash set, sessions revoked |
| AccountService.AccountTables.IssuePasswordReset | api/src/routers/tenant_users.py:289-336 | Earlier tokens used up and one new one, or 404 |
| AccountService.AccountTables.DisableTenantUser | api/src/routers/tenant_users.py:198-247 | Disabled unless missing, disabled already, or the last active owner |
| AccountService.AccountTables.EnableTenantUser | api/src/routers/tenant_users.py:254-284 | Enabled if it was disabled, or the source's error and no write |
| AccountService.AccountTables.UpdateTenantUser | api/src/routers/tenant_users.py:149-190 | A role that needs MFA turns the requirement on; no role turns it off |
| AccountService.AccountTables.CreateTenantUser | api/src/routers/tenant_users.py:46-90 | 404 for no tenant, 409 for a deleted one or for a taken address, whatever its case; MFA required for owners and editors |
| AccountService.AccountTables.LogOut | api/src/routers/me.py:105-115 | Exactly the calling session is revoked |
| AccountService.AccountTables.LogOutEverywhere | api/src/routers/me.py:118-129 | All of the user's sessions are revoked |
| KeysetPaging.WalkIsTheSortedList | api/src/routers/bundles.py:385-429 | For every page size, walking the pages returns every row once, strictly descending, equal to the sorted list, though newer rows arrive between pages |
| KeysetPaging.RestIsBelow | api/src/routers/bundles.py:405-429 | What follows the n-th row of the sorted list is the sorted list of what lies below it |
| KeysetPaging.DescendingLists | api/src/routers/bundles.py:392-402 | The sorted list has every row once, strictly descending |
| KeysetPaging.TimestampAloneLosesRows | api/src/routers/baselines.py:94-98 | A cursor without the id would lose a row of the same instant |
| KeysetPaging.CurrentHeadsTheHistory | api/src/routers/bundles.py:199-207 | The current bundle is the first of the history unless another bundle of its instant has a greater id |
| KeysetPaging.History.List | api/src/routers/baselines.py:100-132 | Half a cursor is refused; otherwise the page below the cursor is returned |

## Left out

- PolicyRuns.RunKeepsInv: write transactions are taken one at a time, except that a republish reads first and commits later. The source asks for no isolation level; of the overlaps that this leaves out, that of two generate transactions (a DELETE before the other's INSERT commits) is in PolicyOverlaps and breaks the one-target-per-key part.
- PolicyRuns.ApprovedIffAudited: takes it that updates of one target row come in commit order, which PostgreSQL's row locks give from each UPDATE to its commit.
- PolicyRuns.BundleProvenance: rests on the same order.
- Order of the rows of a bundle query, of a backup-code scan, of a copy, of match rows with equal sort keys: any order is admitted, so nothing is said about which one occurs.
- Stamping of bundle targets when reviews commit between the build's query and its insert: only provenance is claimed for interleaved builds; that exactly the shipped targets are stamped is claimed for atomic ones.
- PolicyPortal.Portal.Publish: the count of approved targets and the status change are one step; a review committing between them is admitted by the interleaved runs, which do not check the count, and not by this method.
- `copies` and a bundle's `readAt` are bookkeeping of the model: the database does not record which row a republished target was copied from, nor when a build read its rows.
- Inference of a target system from a path: the system is an arbitrary argument of a fork.
- RegoGenerator.GenerateTargets: the template, the mapping lookup, the LLM and `opa check` are arbitrary functions.
- Characters: text is a sequence of characters, digits and white space are the ASCII ones, and case mapping is that of ASCII letters.
- Column widths (varchar limits, numeric precision) and foreign keys of tags to CVEs.
- NvdIngest.NoGap: runs that overlap in time are outside the statement, as is a first run without a watermark.
- AccountRuns.VerifiedForAReason: over atomic requests only; AccountOverlaps, where checks and writes interleave, keeps no claim about why a session is verified.
- AccountProofs.FactorsAndResetsAgree: over atomic requests only; two overlapping set-ups can each see no TOTP factor.
- AccountOverlaps.AppliesPlanned: each write is one step, though a verification burns its backup code and flips its session in two transactions, and a revocation drops the flag in a second statement.
- Display names and OIDC subjects of users; tenants, whose lookup is an argument of a user's creation.
- WebAuthn factors, cookies, CSRF, rate limits, role checks and the best-effort last-used stamps.
- The first-seen time of vendors' remediations and the reference lists that the feed joins in.
- List and detail endpoints that only read, standard-library browsing, the upstream diff, compliance reports, legal holds, host mappings, tenant administration and the whole frontend: single queries or user interface.
- Signing of bundles and the bytes that `opa build` makes: a bundle is its files and a digest.
