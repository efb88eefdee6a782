# A verified model of the Hangar store

Hangar keeps governed documents and memories in one embedded database (redb) and three projections that
can be rebuilt from it: a text index, a vector index and a keyword graph. This project models the store of
`packages/hangar-server` in Dafny and proves what its states and runs keep:

- **Ingestion and publication.** Admission, the job state machine, and the multi-phase commit of
  `process_claimed_ingestion_job`: one transaction with pending manifests, one vector-file rename, one
  text-generation rename, one final transaction, one cleanup. An operation may stop after any of these steps.
  Whatever the run, the text generation a workspace searches is exactly the chunks of its succeeded documents,
  every ready vector is in its file, the graph tables are the graph of the live text, and boot makes the vector
  files exact again.
- **Graph.** The tables are kept up incrementally by in-place loops; rebuilding them is a no-op. The
  edge-budgeted breadth-first search reports exact distances even when the budget cuts it short.
- **Retrieval.** The three searches, joined with the canonical tables and fused into one ranking.
- **Memory governance.** Life cycle, supersession chains, expiry, share grants and the greedy context package.
- **Admission and quotas.** Write-once indexes, usage accounting, limits.
- **Chunker and outbox pager.** Content preservation and paging; a polling consumer receives every version in order.

## How it is laid out

Every operation has a specification function on a plain value (`StoreSpec`, `IntakeSpec`, `MemorySpec`,
`ShareSpec`, ...) and, where the program updates tables in place, a class method or loop that is proved to compute
exactly that function (`HangarStore`, `GraphTransaction`, `Governance`, `TextIndex`, `VectorIndex`, `Outbox`,
`Quotas`, and the loops in `AttemptTables`, `ReadySources`, `StoreMethods`). `StoreRuns` and `GovernanceRuns` put
the operations into arbitrary sequences; `StoreTheorems`, `JobTheorems`, `Worker` and `GovernanceRuns` state what
holds after every one of them. `StoreValid` in `StoreSpec.dfy` is the invariant of the store. `QuotaRuns` runs both
halves, and blob uploads, against the limits. `Retrieval`, `QueryScore` and `ContextPackage` answer queries over them.
`Announcements` joins the governance log to the outbox table that `Outbox` pages through. `Admission`, `JobRows`,
`GovernanceRules`, `GraphDistance`, `ExtractorTheorems`, `RankingTheorems`, `PackageTheorems` and `ChunkerGroups` say
what the operations decide and write in terms of the fields, texts and numbers that a caller sees.

## Modelling assumptions

- Scopes are (organization, workspace) pairs. The program joins them with `:` or NUL into string keys
  (packages/hangar-server/src/store.rs:1753-1765, packages/hangar-server/src/vector.rs:269-281), which is injective
  only when ids contain no `:`.
- SHA-256 is a free injective constructor (`Basics.Digest`). UUIDv5 ids (section 5.5 of RFC 9562) are injective
  functions of their names (`EntityId`, `EdgeId`). UUIDv7 ids (section 5.7 of RFC 9562) are parameters required to be
  unused; that they increase is assumed only where a consumer must miss nothing (`Outbox.IncreasingIdsMissNothing`,
  `Outbox.StreamIsOneScan` and the steps of `Announcements`).
- The byte order of hyphenated lower-case UUID text is the numeric order of the UUIDs, so redb iterates ids in
  numeric order (`Basics.InOrder`).
- `f32` scores and confidences are `real`. Integers are unbounded except where the width shows: ANN keys end at the
  64-bit maximum, the back-off power and the ingestion byte sum saturate. Memory and blob byte sums are plain sums in
  the program (packages/hangar-server/src/store.rs:838-846) and unbounded in the model. The byte checks saturate, which
  matters only for a limit equal to the machine maximum (`Quotas.FitsExactly`).
- The clock is a parameter `now`, one reading for each operation. Milliseconds are `nat`.
- Unicode tables (white space aside) are an unspecified constant; every theorem holds for all tables.
- The store sits behind one mutex (packages/hangar-server/src/main.rs:1990-2014, 2205-2235), so operations do not
  interleave; a crash is an operation cut short by its `steps` parameter, followed by the operations of the next boot.
  Input and output failures are parameters in the same way (`steps`, `torn`, `failing`, `broken`, `renamed`).
- The embedding profile is fixed for a process but not for a data directory: each operation carries its own profile.
- An index is the map of the entries published to it, and a vector is represented by the text it embeds.
- A claim in hand carries the payload of a job on record: its field is private and only a claim fills it.

## Where code and documentation differ

- docs/ingestion-pipeline.md:19 says that an idempotency key makes repeated requests return the original receipt. A
  key is recorded only when its request creates a job: if the first request with a key is answered from the content
  index, the key stays unrecorded, a later request with the same key and other content creates a second job, and from
  then on even the first request is answered with that second job (`IntakeProofs.SameKeySecondJob` spells the four
  requests out). A repetition, after whatever run, gets the job of the first request exactly if the first request found
  its key on record or created its job, or the key is still unrecorded and the content is the same
  (`JobTheorems.RepeatedKeyAfterAnyRun`); once recorded, a key answers forever (`JobTheorems.KeyAnswersForever`).
- Chunks are cut by byte length but bounded in characters: a cut inside a multi-byte character is decoded with
  replacement characters, so text is preserved exactly when no cut falls inside one
  (`ChunkerTheorems.ChunksPreserveText`). At the limit of 1000 that the program passes, 999 letters and one accented
  letter give a chunk of 1002 bytes (`ChunkerBytes.CutCharacterGrows`); the chunks of an input fit the limit in bytes
  exactly under the condition of `ChunkerBytes.ChunksFitExactly`.
- The lease expiry that a claim writes is never read: leases are returned at boot only.

## Model

| member | source | states |
|---|---|---|
| StoreTheorems.TextRefinement | packages/hangar-server/src/store.rs:2016-2339 | after any run of requests, worker steps, failures, crashes, rebuilds and cleanups, the active generation of a workspace is on disk and indexes exactly the chunks of its succeeded documents; without one there are none |
| StoreTheorems.VectorRefinement | packages/hangar-server/src/store.rs:2542-2660 | after any run every live chunk of a profile is in that profile's file with its own text, and an ANN hit that passes the manifest checks is a live chunk: leftovers of crashed or failed attempts are never retrievable |
| StoreTheorems.GraphRefinement | packages/hangar-server/src/store.rs:1285-1296 | after any run the graph rows of a workspace are the graph of its live chunks, and rebuilding them changes no row of any workspace |
| StoreTheorems.LiveIsPayloads | packages/hangar-server/src/store.rs:2046-2059 | the live texts of a workspace are exactly the chunks of the payloads of its succeeded documents, each under one id |
| StoreTheorems.SucceededRowsAreChunks | packages/hangar-server/src/store.rs:2046-2059 | whatever earlier attempts wrote, the rows of a succeeded document are `chunk_text` of its payload, no more and no fewer |
| StoreTheorems.JobsAreConsistent | packages/hangar-server/src/store.rs:1846-2014 | in every reachable state job and document agree on status, a lease is set iff processing, a next attempt iff queued or waiting for a retry |
| StoreTheorems.IndexesResolve | packages/hangar-server/src/store.rs:1804-1842 | deduplication and idempotency entries always resolve to an existing job, payload and document, so the "missing" errors are unreachable |
| StoreTheorems.AllocationNeverCollides | packages/hangar-server/src/store.rs:2061-2119 | keys from the stored counter on are unmapped, every manifest key of the workspace is below it, no two manifests share a key, and the slot table is the exact inverse of the manifest keys |
| StoreTheorems.BootIsExact | packages/hangar-server/src/main.rs:1990-2014 | after recovery and reconciliation in any order no job is leased, and the file of each reconciled workspace holds exactly the ready keys |
| StoreRuns.ApplyKeepsValid | packages/hangar-server/src/store.rs:2016-2339 | every operation, cut short after any of its durable steps, keeps the whole invariant and forgets no admission record |
| StoreRuns.RunExtends | packages/hangar-server/src/store.rs:1788-1900 | over any run the admission indexes only grow, payloads never change and succeeded documents stay as they are |
| StoreRuns.PayloadHasChunks | packages/hangar-server/src/store.rs:2020-2021 | content yields no chunk iff it is blank, so "no indexable chunks" is unreachable after enqueue validation |
| CommitProofs.CommitKeepsValid | packages/hangar-server/src/store.rs:2215-2339 | the final transaction turns a published draft into live text in all three projections at once and touches no other workspace |
| CommitProofs.CleanupKeepsValid | packages/hangar-server/src/store.rs:1231-1249 | cleanup, complete or cut short, never removes the directory of an active generation |
| CommitProofs.RebuildKeepsValid | packages/hangar-server/src/store.rs:1285-1351 | rebuilding one workspace graph leaves the rows of every workspace unchanged |
| PublishProofs.PrepareKeepsValid | packages/hangar-server/src/store.rs:2046-2171 | the first transaction makes nothing newly visible and keeps the invariant |
| JobTheorems.JobTransitions | packages/hangar-server/src/store.rs:1917-2014 | every operation moves every job along an edge of the state machine, only recovery or an accepted owner retry re-queues it, and only a claim no earlier than its scheduled retry starts a waiting job |
| JobRows.JobRowWritten | packages/hangar-server/src/store.rs:1917-2522 | every operation leaves a job row alone or writes exactly the fields spelled out for it: lease, back-off, recorded error, attempts, times |
| JobTheorems.AttemptsBounded | packages/hangar-server/src/store.rs:2369-2388 | attempts never exceed three plus the boot recoveries since enqueue or owner retry; a scheduled retry waits exactly 1 s or 2 s |
| JobTheorems.SucceededForever | packages/hangar-server/src/store.rs:2255-2268 | a succeeded job is never changed again by any run |
| JobTheorems.ReplayedAfterAnyRun | packages/hangar-server/src/store.rs:1804-1842 | after a request created a job, in every later state a request with its key, or with its content and no recorded key, gets that job back and changes nothing |
| Worker.QueueDrains | packages/hangar-server/src/main.rs:2205-2235 | with n freshly queued jobs and no crash, owner retry or arrival, at most 3n turns claim a job, and after 3n turns that came no earlier than the retries scheduled when they started every job has succeeded or is a dead letter, whichever attempts failed and where |
| Worker.TimelyTurnsWork | packages/hangar-server/src/main.rs:2205-2235 | from any state without leases, every such turn does some of the work that is left until none is |
| Worker.ClaimsArePaid | packages/hangar-server/src/main.rs:2205-2235 | every claim is paid for by work that was left, from any state in which no job is leased |
| Worker.OpenJobsBecomeClaimable | packages/hangar-server/src/store.rs:1965-1985 | while a job is open and none is leased, some time is late enough for every later claim to succeed |
| Worker.Work | packages/hangar-server/src/main.rs:2205-2235 | the worker loop over the store object performs exactly the turns that the draining theorem is about, up to the stale directories that a failing cleanup leaves |
| IntakeProofs.EnqueueKeepsValid | packages/hangar-server/src/store.rs:1770-1915 | enqueue succeeds iff the request is well formed, changes nothing iff it is answered from an index, and returns the stored rows |
| Admission.RefusedExactly | packages/hangar-server/src/store.rs:1770-1784 | a request is refused exactly for an empty scope, name, content or key or a key of more than 256 bytes, the first fault in this order being the answer |
| Admission.AnsweredWith | packages/hangar-server/src/store.rs:1804-1915 | a request gets the job of its workspace with its key, else the one with its content, else exactly the spelled-out new job, document and payload |
| IntakeProofs.ReplayReturnsSameJob | packages/hangar-server/src/store.rs:1804-1842 | a replay returns the job and document that the first request created |
| IntakeProofs.KeyRecordedIffCreated | packages/hangar-server/src/store.rs:1889-1896 | after a well-formed request its key is on record exactly if it was before or the request created its job, and then it leads to the job of the receipt |
| IntakeProofs.RepeatedKeyReturnsFirstJob | packages/hangar-server/src/store.rs:1804-1842 | of two requests with one scope and key, with anything admitted in between, the second gets the job of the first iff the first found its key on record or created its job, or the key is still unrecorded and both carry the same content |
| JobTheorems.RepeatedKeyAfterAnyRun | packages/hangar-server/src/store.rs:1804-1842 | the same over runs: the exact condition, after every sequence of operations, under which a repeated key returns the original job |
| IntakeProofs.SameKeySecondJob | packages/hangar-server/src/store.rs:1804-1842 | three concrete requests after which one key has been answered with two jobs, and a fourth, identical to the second, that is answered with the job of other content |
| JobTheorems.KeyAnswersForever | packages/hangar-server/src/store.rs:1804-1823 | a recorded key answers with its job after every run, whatever content comes with it |
| IntakeProofs.WorkspaceBijection | packages/hangar-server/src/store.rs:1870-1896 | in one workspace documents, jobs and deduplication entries correspond one to one: the links are mutually inverse maps |
| IntakeProofs.ClaimKeepsValid | packages/hangar-server/src/store.rs:1961-2014 | a claim never fails; it answers none exactly if no job is queued and no scheduled retry is due, and otherwise leases the startable job with the least id for 30 s |
| IntakeProofs.FailKeepsValid | packages/hangar-server/src/store.rs:2341-2388 | a failure is recorded iff the error is not blank and the job is processing |
| IntakeProofs.OwnerRetryKeepsValid | packages/hangar-server/src/store.rs:2471-2522 | an owner retry is accepted iff the job is a dead letter of that workspace |
| HangarStoreModel.HangarStore.EnqueueDocument | packages/hangar-server/src/store.rs:1770-1915 | the method's new tables and receipt are those of the specification |
| HangarStoreModel.HangarStore.EnqueueDocumentWithLimits | packages/hangar-server/src/store.rs:905-920 | limits are measured only for requests that neither index knows; no table but the intake tables changes |
| HangarStoreModel.HangarStore.DocumentIsDeduplicated | packages/hangar-server/src/store.rs:1745-1768 | true exactly when enqueue would answer from an index |
| HangarStoreModel.HangarStore.RecoverIncompleteIngestionJobs | packages/hangar-server/src/store.rs:1917-1959 | the two loops requeue exactly the leased jobs and their documents and return their number |
| HangarStoreModel.HangarStore.ClaimNextIngestionJob | packages/hangar-server/src/store.rs:1961-2014 | the scan and the two writes are the specified claim: none iff nothing can start, else the least startable job |
| HangarStoreModel.HangarStore.FailClaimedIngestionJob | packages/hangar-server/src/store.rs:2341-2388 | retry or dead letter as specified; errors change nothing |
| HangarStoreModel.HangarStore.RetryDeadLetterIngestionJob | packages/hangar-server/src/store.rs:2471-2522 | the specified owner retry; errors change nothing |
| HangarStoreModel.HangarStore.BeginAttempt | packages/hangar-server/src/store.rs:2046-2171 | first transaction: it succeeds iff the job is leased and keys remain, and then writes exactly the rows, keys and pending manifests of the draft |
| HangarStoreModel.HangarStore.PublishGenerationWithPending | packages/hangar-server/src/store.rs:1658-1679 | the new vector file is the ready vectors plus the pending ones; "duplicate ANN key" is returned, and the old file kept, exactly if a pending key repeats a pending or a ready one |
| HangarStoreModel.HangarStore.PublishTextGenerationWithPending | packages/hangar-server/src/store.rs:1191-1203 | the new generation is the ready chunks plus this attempt's, renamed into place or not at all |
| HangarStoreModel.HangarStore.CommitAttempt | packages/hangar-server/src/store.rs:2215-2339 | the final transaction writes exactly the specified commit and cannot fail on a stored draft |
| HangarStoreModel.HangarStore.ProcessClaimedIngestionJob | packages/hangar-server/src/store.rs:2016-2339 | all phases together, cut short anywhere, are the process step of the runs; it returns the succeeded job iff the final transaction happened |
| HangarStoreModel.HangarStore.RebuildVectorWorkspace | packages/hangar-server/src/store.rs:1076-1089 | the file becomes exactly the ready vectors, or stays as it was |
| HangarStoreModel.HangarStore.RebuildTextWorkspace | packages/hangar-server/src/store.rs:1121-1133 | publish, activate and clean up, cut short anywhere |
| HangarStoreModel.HangarStore.RebuildGraphWorkspace | packages/hangar-server/src/store.rs:1285-1296 | the rows of every workspace are unchanged, and the listed chunks are the live ones |
| HangarStoreModel.HangarStore.ReconcileVectorProjection | packages/hangar-server/src/store.rs:1045-1074 | every workspace with a manifest ends up with an exact file of the current profile |
| HangarStoreModel.HangarStore.ReconcileTextProjection | packages/hangar-server/src/store.rs:1091-1119 | afterwards only active generations are left on disk |
| HangarStoreModel.HangarStore.Boot | packages/hangar-server/src/main.rs:1996-2014 | the boot sequence leaves no lease, exact vector files and only active text generations |
| ReadySources.ReadyTextEntries | packages/hangar-server/src/store.rs:1135-1189 | the manifest, chunk and document filters select exactly the live chunks, each listed once |
| ReadySources.ReadyVectorEntries | packages/hangar-server/src/store.rs:1591-1656 | the same for one profile, by ANN key; the seen-key filter drops nothing |
| ReadySources.ReadyGraphChunks | packages/hangar-server/src/store.rs:1298-1351 | the same for the graph, each live chunk listed once |
| ReadySources.MergePending | packages/hangar-server/src/store.rs:1664-1672 | merging fails iff a key repeats, and otherwise loses no entry |
| AttemptTables.AllocateKeys | packages/hangar-server/src/store.rs:2064-2119 | keys are consecutive from the counter; running out of 64-bit keys is the only error |
| AttemptTables.SkipUsed | packages/hangar-server/src/store.rs:2097-2101 | the least unused key that is not below the counter, or none is left |
| TextIndex.WorkspaceTextIndex.PublishGeneration | packages/hangar-server/src/text.rs:39-79 | an existing generation is never overwritten; the rename happens after a complete build, and a build cut short leaves an arbitrary temporary directory and nothing else |
| TextIndex.WorkspaceTextIndex.CleanupUnreferencedGenerations | packages/hangar-server/src/text.rs:133-160 | what is left is the active directories and, after a failed removal, some stale ones; the count is exact |
| VectorIndex.WorkspaceVectorIndex.PublishGeneration | packages/hangar-server/src/vector.rs:172-194 | atomic replacement: the old file or the complete new one |
| Retrieval.RetrieveChunks | packages/hangar-server/src/store.rs:2542-2699 | over the active text generation, the vector file and the graph tables of a valid state: every text and graph candidate becomes a hit, every hit is a live chunk whose scores belong to the content returned with it, one hit each, ranked and cut to the limit; it fails only on a blank query or a failing search |
| RankingTheorems.RankedByWeight | packages/hangar-server/src/store.rs:2667-2698 | the order of two hits, exactly: a lexical point weighs one over the greatest lexical score, a vector point 2, a graph point one half; equal hits by document and position |
| RankingTheorems.BetterStandsFirst | packages/hangar-server/src/store.rs:2672-2698 | a hit at least as good in all three scores and better in one stands first |
| RankingTheorems.NearerStandsFirst | packages/hangar-server/src/store.rs:2566-2582 | of two chunks that only the vector search found the nearer one stands first |
| RankingTheorems.VectorScoreIs | packages/hangar-server/src/store.rs:2566-2582 | a vector score is one minus the distance, not below zero |
| Retrieval.SearchGraph | packages/hangar-server/src/store.rs:2583-2593 | told on live texts: a chunk one step from the query scores a half, two steps a quarter, nothing else scores, and none is missing unless the limit or the 128 edges ran out |
| Retrieval.JoinRow | packages/hangar-server/src/store.rs:2594-2665 | a row is a hit iff its document has succeeded in the workspace and some search found it |
| GraphProjection.MaterializeRows | packages/hangar-server/src/store.rs:4068-4193 | adding new chunks turns the graph of the old texts into the graph of all texts and touches no other workspace |
| GraphProjection.ClearRows | packages/hangar-server/src/store.rs:4195-4270 | clearing leaves the graph of no text and touches no other workspace |
| GraphProjection.RebuildIsNoOp | packages/hangar-server/src/store.rs:1285-1296 | clear and materialize, in any chunk order, land on the same rows |
| GraphTransaction.Transaction.MaterializeGraphChunks | packages/hangar-server/src/store.rs:4068-4193 | the in-place loops with their two lookup maps compute the specified tables |
| GraphTransaction.Transaction.ClearGraphWorkspace | packages/hangar-server/src/store.rs:4195-4270 | the collected keys, removed one by one, are the specified clearing |
| ExtractorTheorems.ExtractionExact | packages/hangar-server/src/graph.rs:31-74 | the first eight distinct keywords of the content: each from the first maximal alphanumeric run that spells its name, in order, and none missing unless eight were met before it; relations for exactly their unordered pairs, smaller name first, with confidence one half |
| ExtractorTheorems.WordIsRun | packages/hangar-server/src/graph.rs:34 | the words of the split are maximal alphanumeric runs of the content |
| ExtractorTheorems.RunIsWord | packages/hangar-server/src/graph.rs:34 | and every maximal run is a word of the split |
| Extractor.ExtractLoop | packages/hangar-server/src/graph.rs:31-74 | the loops with `seen` and the early break compute that extraction |
| GraphTraversal.Traverse | packages/hangar-server/src/store.rs:1532-1582 | every recorded distance is the true one even when the budget cuts the search; each entity is queued once; within the budget the candidates are exactly the chunks near enough |
| GraphTraversal.WithinIsReachable | packages/hangar-server/src/store.rs:1548-1562 | the reference distance is reachability by paths of bounded length |
| GraphTraversal.ExpandEntity | packages/hangar-server/src/store.rs:1546-1580 | one entity's edges, cut off mid-node: the budget is never exceeded and every fact about distances survives |
| GraphSearch.GraphCandidates | packages/hangar-server/src/store.rs:1483-1587 | the candidates of a query over the tables, at most 1 to 3 hops away as the caller asks, ranked by score and then chunk id and cut to the limit; while fewer than 128 edges were used no candidate that ranks higher is missing |
| GraphSearch.SearchesLiveText | packages/hangar-server/src/store.rs:1497-1536 | in every valid state the tables that a query searches are spelled by the live texts alone |
| GraphDistance.HopsAreTextual | packages/hangar-server/src/store.rs:1532-1582 | hop counts over the tables are hop counts over the live texts: one step leads from a name to any name of a text that both are in |
| ChunkerTheorems.ChunksFitAndExist | packages/hangar-server/src/store.rs:4383-4409 | chunks have at most the maximum number of characters, and there is one iff the input is not blank |
| ChunkerTheorems.ChunksPreserveText | packages/hangar-server/src/store.rs:4383-4409 | dropping separators reproduces the trimmed paragraphs in order iff no cut falls inside a character |
| ChunkerGroups.ChunksAreGroups | packages/hangar-server/src/store.rs:4383-4409 | neighbouring paragraphs share a chunk exactly as long as they fit together; one that does not fit is cut on its own |
| ChunkerGroups.ChunksKeepVisibleText | packages/hangar-server/src/store.rs:4383-4409 | if no character is cut, the chunks read in turn show the characters of the content, white space aside, in order |
| ChunkerGroups.PiecesSpellContent | packages/hangar-server/src/store.rs:4386 | splitting at blank lines loses nothing |
| ChunkerBytes.ChunksFitExactly | packages/hangar-server/src/store.rs:4383-4409 | for limits of four and more, all chunks fit the limit in bytes iff in each oversized paragraph no cut falls inside a character, but for a last cut after three of four bytes with a short enough rest |
| ChunkerBytes.CutCharacterGrows | packages/hangar-server/src/store.rs:4394-4396 | at the limit of 1000: an input of 1001 bytes whose first chunk has 1002 |
| ChunkerBytes.CutCharacterMayFit | packages/hangar-server/src/store.rs:4394-4396 | at the limit of 1000: an input with a cut character whose chunks fit nevertheless |
| ChunkerBytes.ChunksFitInBytes | packages/hangar-server/src/store.rs:4383-4409 | for every limit, when no character is cut, chunks are bounded in bytes too |
| ChunkerBytes.AsciiChunks | packages/hangar-server/src/store.rs:4383-4409 | ASCII input is preserved and its chunks are bounded in bytes |
| Chunker.ChunkTextLoop | packages/hangar-server/src/store.rs:4383-4409 | the loop with its `current` buffer computes the specified chunks |
| MemoryProofs.TransitionKeepsValid | packages/hangar-server/src/store.rs:2701-2779 | every transition keeps versions, announcements and chains; it is accepted iff the memory is in that workspace, the move is one of the six, the replacement is another published, unexpired memory there, and the expiry lies within a year |
| MemoryProofs.TransitionIs | packages/hangar-server/src/store.rs:2701-2779 | the row and the event of an accepted transition, field by field; errors change nothing |
| MemoryProofs.TransitionRefusal | packages/hangar-server/src/store.rs:2716-2756 | which refusal a caller sees, in order |
| GovernanceRules.CreateIs | packages/hangar-server/src/store.rs:1681-1743 | when a memory is accepted, and its row and event |
| GovernanceRules.ExpireIs | packages/hangar-server/src/store.rs:2781-2811 | an expiry pass expires exactly the open memories whose time has come |
| GovernanceRules.ProposeIs | packages/hangar-server/src/store.rs:3579-3664 | when a grant is accepted, and its row and event |
| GovernanceRules.ReviewIs | packages/hangar-server/src/store.rs:3666-3734 | when a review is accepted, and its row and event |
| GovernanceRules.EveryStageIsReached | packages/hangar-server/src/store.rs:2701-2779 | a run of eight operations reaches every stage of the life cycle |
| MemoryProofs.ExpireKeepsValid | packages/hangar-server/src/store.rs:2781-2839 | an expiry pass keeps them too and leaves nothing due |
| MemoryProofs.SupersessionTerminates | packages/hangar-server/src/store.rs:2721-2765 | following `superseded_by` from a superseded memory visits no memory twice and ends in a published or expired one of the same workspace |
| GovernanceRuns.ChainsAreWellFounded | packages/hangar-server/src/store.rs:2721-2765 | the same after every run of creations, transitions, expiries, proposals and reviews |
| GovernanceRuns.EventsMatchVersions | packages/hangar-server/src/store.rs:2758-2777 | the outbox announces versions 1, 2, ... of each memory and grant once each and in order; the version fixes the life-cycle stage |
| GovernanceRuns.GrantsAreUnique | packages/hangar-server/src/store.rs:3615-3634 | at most one pending or approved grant for each workspace, memory and audience key |
| GovernanceRuns.ClosedGrantsNeverExpose | packages/hangar-server/src/sharing.rs:71-117 | a rejected or revoked grant is never active for anyone again |
| ShareProofs.StableKeyIdentifies | packages/hangar-server/src/sharing.rs:51-58 | stable keys are equal iff the audiences are |
| ShareProofs.ReviewKeepsRegistry | packages/hangar-server/src/store.rs:3666-3734 | a review keeps grants valid and follows the review transitions |
| Governance.GovernanceStore.CreateMemory | packages/hangar-server/src/store.rs:1681-1743 | row, event and errors as specified |
| Governance.GovernanceStore.CreateMemoryWithLimits | packages/hangar-server/src/store.rs:868-880 | the limits are measured before the memory is created; a refusal changes nothing |
| Governance.GovernanceStore.TransitionMemory | packages/hangar-server/src/store.rs:2701-2779 | row, event and errors as specified, and accepted exactly under the conditions on the fields |
| Governance.GovernanceStore.ExpireDueMemories | packages/hangar-server/src/store.rs:2781-2839 | the collecting and writing loops expire exactly the due memories, in key order, and count them |
| Governance.GovernanceStore.ProposeMemoryShare | packages/hangar-server/src/store.rs:3579-3664 | row, event and errors as specified, duplicates found by the scan |
| Governance.GovernanceStore.ReviewMemoryShare | packages/hangar-server/src/store.rs:3666-3734 | row, event and errors as specified |
| Governance.GovernanceStore.CompileContextPackage | packages/hangar-server/src/store.rs:3756-3894 | due memories expire first, even when the query is refused; a failing retrieval fails the package; the package is the exact one: sound items in rank order, and nothing the caller may read that concerns the query is missing unless it ranks too low or did not fit |
| PackageTheorems.PackageIsExact | packages/hangar-server/src/store.rs:3797-3884 | every item is a published, unexpired memory of the caller's organization, local or named by an approved, unexpired grant whose audience is the organization, this workspace, this agent or this user; conversely each memory so readable that concerns the query is ranked, and is an item if it ranks among the considered ones and still fits |
| PackageTheorems.EligibleIff | packages/hangar-server/src/sharing.rs:30-49 | a memory of another workspace is eligible iff some grant names it to the caller |
| PackageTheorems.PackedIsGreedy | packages/hangar-server/src/store.rs:3859-3884 | each of the first candidates, 1 to 50 as asked, is taken exactly when its tokens, a quarter of its bytes rounded up, still fit |
| ContextPackage.PackageIsSound | packages/hangar-server/src/store.rs:3797-3884 | no memory twice, tokens add up within the budget, and nothing left out of the window would still fit |
| ContextPackage.PackedIsMaximal | packages/hangar-server/src/store.rs:3859-3884 | greedy skipping yields a maximal in-order selection |
| QueryScore.CountIsMost | packages/hangar-server/src/store.rs:3832-3835 | the counted occurrences of a term are at least as many as any choice of occurrences that do not overlap |
| QueryScore.CountIsAttained | packages/hangar-server/src/store.rs:3832-3835 | and there are that many |
| QueryScore.TermsSpellQuery | packages/hangar-server/src/store.rs:3770-3776 | terms are the words of the query: they spell it without its white space, and there are none iff it is blank |
| QueryScore.ScoredIffRelevant | packages/hangar-server/src/store.rs:3832-3845 | a memory scores iff it mentions a term or is local and its source was retrieved |
| QueryScore.ScoreIsExact | packages/hangar-server/src/store.rs:3836-3842 | a ranked local source is worth ten thousand less its rank, on top of the mentions |
| QueryScore.MentionsAddUp | packages/hangar-server/src/store.rs:3832-3835 | each term adds the greatest number of its occurrences that do not overlap |
| QueryScore.SourceRanks | packages/hangar-server/src/store.rs:3781-3792 | the fold keeps, for each source, the rank at which it is first met |
| Outbox.ListEvents | packages/hangar-server/src/store.rs:1451-1481 | one scan returns the first events, in id order, of the organization and workspace asked for that lie beyond the cursor |
| Outbox.PageIs | packages/hangar-server/src/store.rs:1451-1481 | what a page holds, on the fields of its events: none that was not asked for, and all of them unless the page is full |
| Outbox.OutboxTable.ListOutboxEvents | packages/hangar-server/src/store.rs:1451-1481 | the same on the live table |
| Outbox.PagesConcatenate | packages/hangar-server/src/store.rs:1451-1481 | for every limit the pages concatenate to the full filtered list |
| Outbox.DeliveredIffAheadOfCursor | packages/hangar-server/src/store.rs:1451-1481 | on a growing table, a consumer that catches up has received a matching event iff its id was beyond the cursor when it was inserted |
| Outbox.IncreasingIdsMissNothing | packages/hangar-server/src/store.rs:4018-4041 | with increasing ids nothing is missed |
| Outbox.DeliveredAtMostOnce | packages/hangar-server/src/store.rs:1451-1481 | no event is on two pages |
| Outbox.StreamAscends | packages/hangar-server/src/store.rs:1451-1481 | on any sequence of tables, what is delivered ascends in id order across pages |
| Outbox.StreamIsOneScan | packages/hangar-server/src/store.rs:1451-1481 | with increasing ids, the pages fetched from a growing table concatenate to one scan of the final table |
| Announcements.RunMirrors | packages/hangar-server/src/store.rs:4018-4041 | after every run the outbox holds, in id order, the versions that the governance operations announced |
| Announcements.ConsumerReceivesVersions | packages/hangar-server/src/store.rs:1451-1481 | a consumer that polls while governance and other operations write, and catches up, has received the versions 1, 2, ..., current of each memory and grant that its query covers, each once and in order |
| Announcements.WriteEvents | packages/hangar-server/src/store.rs:2813-2836 | the events of one operation are inserted one by one under the ids drawn for them |
| QuotaRuns.QuotasHold | packages/hangar-server/src/store.rs:848-957 | with byte limits below the machine maximum, workspaces stay within all limits under every run of the store's and the governance operations and of blob uploads, where enqueues, memory creations and uploads are the limited ones |
| QuotaRuns.OtherStepsKeepSizes | packages/hangar-server/src/store.rs:1917-2522 | no store operation but an enqueue changes the measured documents of a workspace, cut short anywhere |
| QuotaRuns.OtherStepsKeepContent | packages/hangar-server/src/store.rs:2701-2839 | no governance operation but a creation adds a memory or changes its content |
| Quotas.ChargedIffCreated | packages/hangar-server/src/store.rs:905-920 | the check runs exactly when a new document would be created; a replay is answered and charges nothing |
| Quotas.FitsExactly | packages/hangar-server/src/store.rs:848-944 | a saturating byte check is exact iff the limit is below the machine maximum or nothing overflows |
| Quotas.MeasureDocuments | packages/hangar-server/src/store.rs:758-805 | the usage loop computes the document count and the saturated payload bytes |
| Quotas.EnforceDocumentLimits | packages/hangar-server/src/store.rs:882-903 | the checks in their order, against measured usage |
| Quotas.DocumentPasses | packages/hangar-server/src/store.rs:882-903 | a document passes iff it is small enough, its workspace is named and has room for one more and for its bytes |
| Quotas.MemoryPasses | packages/hangar-server/src/store.rs:848-866 | the same for memories |
| Quotas.BlobPasses | packages/hangar-server/src/store.rs:922-944 | the same for blobs, a known one not being charged again |
| Quotas.EnforceMemoryLimits | packages/hangar-server/src/store.rs:848-866 | the checks in their order, against measured usage |
| Quotas.BlobTable.PutBlobWithLimits | packages/hangar-server/src/store.rs:922-957 | a blob is recorded iff the checks pass and its digest matches; a known digest is not charged again |

## Left out

- QuotaRuns.QuotasHold: has no blob count limit, because the program has none, and leaves working-session promotion out; promotion makes the same check before it creates a memory.
- Worker.Work: runs for a given number of turns; the sleeps of the idle worker and its logging are not modelled.
- StoreTheorems.VectorRefinement: says nothing about which keys an approximate search returns; pending keys left by a failed attempt can take candidate slots.
- Retrieval.RetrieveChunks: leaves open which entries of the two indexes the libraries return and how they score them, and uses real arithmetic in place of f32.
- StoreTheorems.GraphRefinement: display names and timestamps of entities may differ after a rebuild and are not part of the rows.
- Temporary vector files and their removal at boot: nothing reads them.
- Audit events, and outbox events of documents: written beside the modelled rows, never read by them.
- `retrieve_graph`: the same candidates checked once more against manifests, then formatted.
- Tantivy and BM25, USearch, fastembed, redb and serde: libraries.
- `embed_hashing_v1` and `normalize`: f32 arithmetic whose rounding matters; an embedding enters through the distances that the vector search returns.
- Working sessions, skills, guardrail policies, API keys, roles, export: straight-line checks and single scans.
- Blob files on disk: only the manifests count towards a quota.
- HTTP, gRPC, command line and MCP adapters, deployment and benchmark scripts.
