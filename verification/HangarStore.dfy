/** The store object: redb tables updated transaction by transaction, beside two on-disk indexes. */
module HangarStoreModel {
  import opened Basics
  import opened GraphProjection
  import opened StoreTypes
  import opened IntakeSpec
  import opened IntakeProofs
  import opened StoreSpec
  import opened PrepareProofs
  import opened PublishProofs
  import opened CommitProofs
  import opened StoreRuns
  import opened StoreTheorems
  import opened TextIndex
  import opened VectorIndex
  import opened ReadySources
  import opened StoreMethods
  import Quotas
  import Chunker

  class HangarStore {
    var intake: Intake
    var chunks: map<ChunkKey, Chunk>
    var vectorTables: Vectors
    var textTables: Texts
    var graphManifests: map<Uuid, GraphManifest>
    var graph: Graph
    const text: WorkspaceTextIndex
    const vectors: WorkspaceVectorIndex
    const profile: Profile

    function View(): Store
      reads this, text, vectors
    {
      Store(intake, chunks, vectorTables, textTables, graphManifests, graph, Files(vectors.files, text.directories))
    }

    ghost predicate Valid()
      reads this, text, vectors
    {
      StoreValid(View())
    }

    constructor (profile: Profile)
      ensures Valid() && View() == EMPTY_STORE && this.profile == profile
      ensures fresh(text) && fresh(vectors)
    {
      var text := new WorkspaceTextIndex();
      var vectors := new WorkspaceVectorIndex();
      intake, chunks, vectorTables := Intake(map[], map[], map[], map[], map[]), map[], Vectors(map[], map[], map[]);
      textTables, graphManifests, graph := Texts(map[], map[]), map[], EMPTY;
      this.text, this.vectors, this.profile := text, vectors, profile;
      new;
      hide StoreValid;
      EmptyIsValid();
    }

    // ------------------------------------------------- admission and the job queue

    method EnqueueDocument(req: NewDocument, jobId: Uuid, documentId: Uuid, now: nat) returns (r: Result<Receipt>)
      requires Valid() && jobId !in intake.jobs && documentId !in intake.documents
      modifies this
      ensures Valid() && View() == Apply(old(View()), EnqueueOp(req, jobId, documentId, now))
      ensures r == Enqueue(old(intake), req, jobId, documentId, now).1
    {
      hide StoreValid, Apply, ValidateDocument, IntakeValid, ExistingJob;
      IntakeStep(View(), EnqueueOp(req, jobId, documentId, now));
      var invalid := ValidateDocument(req);
      if invalid.Some? { return Err(invalid.value); }
      var existing := FindExisting(req);
      if existing.Some? {
        r := ReplayReceipt(existing.value);
        return;
      }
      InsertJob(req, jobId, documentId, now);
      return Ok(Receipt(intake.documents[documentId], intake.jobs[jobId], false));
    }

    /** The idempotency index answers before the content index. */
    method FindExisting(req: NewDocument) returns (existing: Option<Uuid>)
      ensures existing == ExistingJob(intake, req)
    {
      existing := None;
      if req.idempotencyKey.Some? {
        var key := IdempotencyKey(req.scope, Sha256(req.idempotencyKey.value));
        if key in intake.idempotency { existing := Some(intake.idempotency[key]); }
      }
      var dedupKey := DedupKey(req.scope, Sha256(req.content), PIPELINE_VERSION);
      if existing.None? && dedupKey in intake.dedup { existing := Some(intake.dedup[dedupKey]); }
    }

    /** Either index knows the request. */
    method DocumentIsDeduplicated(req: NewDocument) returns (known: bool)
      ensures known <==> ExistingJob(intake, req).Some?
    {
      var byContent := DedupKey(req.scope, Sha256(req.content), PIPELINE_VERSION) in intake.dedup;
      var byIdempotency := req.idempotencyKey.Some?
                           && IdempotencyKey(req.scope, Sha256(req.idempotencyKey.value)) in intake.idempotency;
      return byContent || byIdempotency;
    }

    method EnqueueDocumentWithLimits(req: NewDocument, limits: Quotas.Limits, jobId: Uuid, documentId: Uuid, now: nat)
      returns (r: Result<Receipt>)
      requires Valid() && jobId !in intake.jobs && documentId !in intake.documents
      modifies this
      ensures Valid()
      ensures View() == old(View()).(intake := intake)
      ensures (intake, r) == Quotas.EnqueueLimited(old(intake), req, limits, jobId, documentId, now)
    {
      hide StoreValid, IntakeValid, ExistingJob, Enqueue, Quotas.CheckDocument, Apply;
      ghost var s := View();
      IntakeStep(s, EnqueueOp(req, jobId, documentId, now));
      var known := DocumentIsDeduplicated(req);
      if !known {
        var over := Quotas.EnforceDocumentLimits(intake, req, limits);
        if over.Some? { return Err(over.value); }
      }
      r := EnqueueDocument(req, jobId, documentId, now);
    }

    method InsertJob(req: NewDocument, jobId: Uuid, documentId: Uuid, now: nat)
      modifies this
      ensures View() == old(View()).(intake := Admit(old(intake), req, jobId, documentId, now))
    {
      var document := Document(documentId, req.scope, req.name, req.source, Sha256(req.content), 0, jobId, Queued);
      var job := Job(jobId, documentId, req.scope, Queued, 0, PIPELINE_VERSION, Sha256(req.content), req.idempotencyKey,
                     None, Some(now), None, now);
      intake := intake.(documents := intake.documents[documentId := document],
                        jobs := intake.jobs[jobId := job],
                        payloads := intake.payloads[jobId := req.content],
                        dedup := intake.dedup[DedupKey(req.scope, Sha256(req.content), PIPELINE_VERSION) := jobId]);
      if req.idempotencyKey.Some? {
        var key := IdempotencyKey(req.scope, Sha256(req.idempotencyKey.value));
        intake := intake.(idempotency := intake.idempotency[key := jobId]);
      }
    }

    method ReplayReceipt(jobId: Uuid) returns (r: Result<Receipt>)
      ensures r == if jobId !in intake.jobs then Err(MissingJob)
                   else if intake.jobs[jobId].documentId !in intake.documents then Err(MissingDocument)
                   else Ok(Receipt(intake.documents[intake.jobs[jobId].documentId], intake.jobs[jobId], true))
    {
      if jobId !in intake.jobs { return Err(MissingJob); }
      var job := intake.jobs[jobId];
      if job.documentId !in intake.documents { return Err(MissingDocument); }
      return Ok(Receipt(intake.documents[job.documentId], job, true));
    }

    method RecoverIncompleteIngestionJobs(now: nat) returns (r: Result<nat>)
      requires Valid()
      modifies this
      ensures Valid() && View() == Apply(old(View()), RecoverOp(now))
      ensures r == Ok(|LeasedJobs(old(intake.jobs))|)
    {
      hide StoreValid, Apply, IntakeValid, LeasedJobs;
      IntakeStep(View(), RecoverOp(now));
      var candidates := CollectLeased(intake.jobs);
      var jobs' := RequeueJobs(intake, candidates, now);
      var documents' := RequeueDocuments(intake, candidates, now);
      if documents'.Err? { return Err(MissingDocument); }
      intake := intake.(documents := documents'.value, jobs := jobs');
      r := Ok(|candidates|);
    }

    method ClaimNextIngestionJob(now: nat) returns (r: Result<Option<ClaimedJob>>)
      requires Valid()
      modifies this
      ensures Valid() && View() == Apply(old(View()), ClaimOp(now))
      ensures r == Claim(old(intake), now).1
      ensures r.Ok? && (r.value.None? <==> forall j :: j in old(intake.jobs) ==> !CanStart(old(intake.jobs)[j], now))
      ensures r.value.Some? ==>
                var j := r.value.value.job.id;
                && j in old(intake.jobs) && CanStart(old(intake.jobs)[j], now)
                && forall k :: k in old(intake.jobs) && CanStart(old(intake.jobs)[k], now) ==> j <= k
    {
      hide StoreValid, Apply, IntakeValid, IsEligible, CanStart;
      ghost var t := intake;
      IntakeStep(View(), ClaimOp(now));
      ClaimKeepsValid(t, now);
      var candidate := FirstEligible(intake.jobs, now);
      if candidate.None? {
        assert EligibleJobs(t, now) == {};
        return Ok(None);
      }
      LeastIsUnique(candidate.value, EligibleJobs(t, now));
      OnlyDocument(t, candidate.value);
      var job := intake.jobs[candidate.value];
      job := job.(status := Processing, attempts := job.attempts + 1, nextAttemptAt := None,
                  leaseExpiresAt := Some(now + INGESTION_LEASE_MS), updatedAt := now);
      if job.documentId !in intake.documents { return Err(MissingDocument); }
      if candidate.value !in intake.payloads { return Err(MissingPayload); }
      var stored := StoreJob(job);
      return Ok(Some(ClaimedJob(job, intake.payloads[candidate.value])));
    }

    /** Writes a job and the status of its document in one transaction. */
    method StoreJob(job: Job) returns (r: Result<()>)
      modifies this`intake
      ensures r.Ok? <==> job.documentId in old(intake.documents)
      ensures intake == if r.Ok? then SetJob(old(intake), job) else old(intake)
    {
      if job.documentId !in intake.documents { return Err(MissingDocument); }
      var document := intake.documents[job.documentId].(status := job.status);
      intake := intake.(jobs := intake.jobs[job.id := job], documents := intake.documents[job.documentId := document]);
      return Ok(());
    }

    method FailClaimedIngestionJob(jobId: Uuid, error: string, now: nat) returns (r: Result<Job>)
      requires Valid()
      modifies this
      ensures Valid() && View() == Apply(old(View()), FailOp(jobId, error, now))
      ensures r == Fail(old(intake), jobId, error, now).1
    {
      hide StoreValid, Apply, IntakeValid, Chunker.IsBlank, Power2;
      IntakeStep(View(), FailOp(jobId, error, now));
      if Chunker.IsBlank(error) { return Err(EmptyError); }
      if jobId !in intake.jobs { return Err(MissingJob); }
      var job := intake.jobs[jobId];
      if job.status != Processing { return Err(NotProcessing); }
      if job.documentId !in intake.documents { return Err(MissingDocument); }
      job := job.(lastError := Some(if |error| <= 512 then error else error[..512]), leaseExpiresAt := None);
      if job.attempts >= MAX_INGESTION_ATTEMPTS {
        job := job.(status := DeadLetter, nextAttemptAt := None);
      } else {
        job := job.(status := RetryWait, nextAttemptAt := Some(now + BackoffMs(job.attempts)));
      }
      job := job.(updatedAt := now);
      var stored := StoreJob(job);
      return Ok(job);
    }

    method RetryDeadLetterIngestionJob(jobId: Uuid, scope: Scope, now: nat) returns (r: Result<Option<Job>>)
      requires Valid()
      modifies this
      ensures Valid() && View() == Apply(old(View()), OwnerRetryOp(jobId, scope, now))
      ensures r == OwnerRetry(old(intake), jobId, scope, now).1
    {
      hide StoreValid, Apply, IntakeValid;
      IntakeStep(View(), OwnerRetryOp(jobId, scope, now));
      if jobId !in intake.jobs { return Ok(None); }
      var job := intake.jobs[jobId];
      if job.scope != scope { return Err(WrongWorkspace); }
      if job.status != DeadLetter { return Err(NotDeadLetter); }
      if job.documentId !in intake.documents { return Err(MissingDocument); }
      job := job.(status := Queued, attempts := 0, lastError := None, nextAttemptAt := Some(now),
                  leaseExpiresAt := None, updatedAt := now);
      var stored := StoreJob(job);
      return Ok(Some(job));
    }

    // ------------------------------------------------- publications

    /** Replaces the workspace's vector file by its ready vectors and this attempt's, unless a key repeats. */
    method PublishGenerationWithPending(scope: Scope, pending: seq<VectorEntry>, renamed: bool) returns (r: Result<()>)
      requires Valid()
      modifies vectors
      ensures r == Err(DuplicateAnnKey) <==>
                !(DistinctKeys(pending) && Keyed(pending).Keys !! old(LiveKeys(View(), scope, profile)).Keys)
      ensures r.Ok? <==> renamed && r != Err(DuplicateAnnKey)
      ensures View() == if r.Ok?
                        then WriteVectorFile(old(View()), scope, profile,
                              old(LiveKeys(View(), scope, profile)) + Keyed(pending))
                        else old(View())
    {
      hide StoreValid, LiveKeys, UniqueIds, UniqueKeys, DistinctKeys;
      var ready := ReadyVectorEntries(View(), scope, profile);
      var entries := MergePending(ready, pending);
      if entries.Err? { return Err(entries.error); }
      r := vectors.PublishGeneration(scope, profile, entries.value, renamed);
    }

    /** Builds and renames a text generation of the ready chunks and this attempt's. */
    method PublishTextGenerationWithPending(scope: Scope, generation: Uuid, pending: seq<TextEntry>,
                                           torn: map<Uuid, string>, io: nat)
      returns (r: Result<()>)
      requires Valid() && Published(scope, generation) !in text.directories
      modifies text
      ensures r.Ok? <==> io >= 2
      ensures View() == TextStep(old(View()), scope, generation, old(Live(View(), scope)) + Indexed(pending),
                                 torn, io)
    {
      hide StoreValid, Live, UniqueIds, Indexed;
      var ready := ReadyTextEntries(View(), scope);
      IndexedAppends(ready, pending);
      r := text.PublishGeneration(scope, generation, ready + pending, torn, io);
    }

    /** `active_paths`: the directories named by the active generation records. */
    method CleanupTextGenerations(failing: set<TextPath>) returns (r: Result<nat>, ghost spared: set<TextPath>)
      modifies text
      ensures View() == CleanupTexts(old(View()), spared)
      ensures r.Ok? ==> spared == {}
      ensures failing == {} ==> r.Ok?
    {
      ghost var s := View();
      r, spared := text.CleanupUnreferencedGenerations(ActivePaths(textTables.active), failing);
      KeptIsCleanup(s, spared);
    }

    // ------------------------------------------------- one ingestion attempt

    /** The claim in hand: its content is the payload of a job that is still on record. */
    predicate Holds(claimed: ClaimedJob)
      reads this
    {
      && claimed.job.id in intake.jobs && claimed.job.id in intake.payloads
      && claimed.content == intake.payloads[claimed.job.id]
      && claimed.job.documentId == intake.jobs[claimed.job.id].documentId
    }

    /** First transaction: the chunks of this attempt, their ANN keys and pending manifests. */
    method BeginAttempt(claimed: ClaimedJob, ids: seq<Uuid>) returns (r: Result<Draft>)
      requires Valid() && Holds(claimed) && FreshIds(View(), ids, |ChunksOf(claimed.content)|)
      modifies this
      ensures r.Ok? <==> old(intake.jobs)[claimed.job.id].status == Processing
                         && NextKey(old(vectorTables.nextKeys), old(intake.jobs)[claimed.job.id].scope) + |ids|
                             <= U64_MAX
      ensures r.Err? ==> View() == old(View())
      ensures r.Ok? ==> r.value == DraftOf(old(View()), claimed.job.id, ids, profile)
                        && View() == Prepare(old(View()), r.value)
    {
      hide StoreValid, ChunksOf, FreshIds, KeysAllocated, Prepare;
      ghost var s := View();
      AttemptFacts(s, claimed.job.id);
      var texts := Chunker.ChunkTextLoop(claimed.content, Chunker.MAXIMUM_CHARS);
      assert texts == ChunksOf(claimed.content) by { ChunksAre(claimed.content); }
      if texts == [] { return Err(NoIndexableChunks); }
      if claimed.job.id !in intake.jobs { return Err(MissingJob); }
      var job := intake.jobs[claimed.job.id];
      if job.status != Processing { return Err(NotProcessing); }
      if claimed.job.documentId !in intake.documents { return Err(MissingDocument); }
      var document := intake.documents[claimed.job.documentId];
      if document.jobId != job.id { return Err(DocumentJobMismatch); }
      FreshHasLength(s, ids, |texts|);
      var d, tables := PrepareTables(View(), job.id, document, texts, ids, profile);
      if tables.Err? { return Err(AnnKeysExhausted); }
      WriteTables(tables.value);
      return Ok(d);
    }

    /** Final transaction: manifests become ready, the graph grows, the generation is activated, the job succeeds. */
    method CommitAttempt(d: Draft, generation: Uuid, now: nat) returns (r: Result<Job>)
      requires Valid() && DraftStored(View(), d)
      requires d.jobId in intake.jobs && intake.jobs[d.jobId].documentId in intake.documents
      modifies this
      ensures View() == StoreSpec.Commit(old(View()), d, generation, now)
      ensures r == Ok(intake.jobs[d.jobId])
    {
      hide StoreValid, DraftStored, StoreSpec.Commit;
      CommitFacts(View(), d);
      var tables := CommitTables(View(), d, generation, now);
      if tables.Err? { return Err(MissingManifest); }
      WriteTables(tables.value);
      return Ok(intake.jobs[d.jobId]);
    }

    /**
     * `process_claimed_ingestion_job`. `steps` counts the durable steps that happen before an error
     * or a crash: the first transaction, the vector file, the temporary and the renamed text
     * generation, the final transaction, the cleanup.
     */
    method ProcessClaimedIngestionJob(claimed: ClaimedJob, ids: seq<Uuid>, generation: Uuid, steps: nat,
                                      torn: map<Uuid, string>, failing: set<TextPath>, now: nat)
      returns (r: Result<Job>, ghost spared: set<TextPath>)
      requires Valid() && Holds(claimed) && FreshIds(View(), ids, |ChunksOf(claimed.content)|)
      requires forall scope :: Published(scope, generation) !in text.directories
      modifies this, text, vectors
      ensures Valid()
      ensures View() == Apply(old(View()),
                              ProcessOp(claimed.job.id, ids, generation, profile, steps, torn, spared, now))
      ensures failing == {} ==> spared == {}
      ensures r.Ok? <==> steps >= 5 && CanProcess(old(View()), claimed.job.id, ids, generation, profile)
      ensures r.Ok? ==> claimed.job.id in intake.jobs && intake.jobs[claimed.job.id] == r.value
      ensures r.Ok? ==> r.value.status == Succeeded
    {
      hide StoreValid, Apply, Publish, FreshIds, ChunksOf, DraftStored, Prepare;
      ghost var s := View();
      spared := {};
      ApplyKeepsValid(s, ProcessOp(claimed.job.id, ids, generation, profile, steps, torn, spared, now));
      CannotProcess(s, claimed.job.id, ids, generation, profile, steps, torn, spared, now);
      if steps == 0 { return Err(Interrupted), spared; }
      var begun := BeginAttempt(claimed, ids);
      FreshHasLength(s, ids, |ChunksOf(claimed.content)|);
      if begun.Err? { return Err(begun.error), spared; }
      var d := begun.value;
      ProcessIsPublish(s, claimed.job.id, ids, generation, profile);
      r, spared := PublishAttempt(d, generation, steps, torn, failing, now);
      ApplyKeepsValid(s, ProcessOp(claimed.job.id, ids, generation, profile, steps, torn, spared, now));
      PublishIsApply(s, claimed.job.id, ids, generation, profile, steps, torn, spared, now);
    }

    /** Everything after the first transaction. */
    method PublishAttempt(d: Draft, generation: Uuid, steps: nat, torn: map<Uuid, string>, failing: set<TextPath>,
                          now: nat)
      returns (r: Result<Job>, ghost spared: set<TextPath>)
      requires Valid() && DraftStored(View(), d) && d.profile == profile && steps > 0
      requires Published(d.scope, generation) !in text.directories
      modifies this, text, vectors
      ensures UniqueIds(old(View()).chunks) && UniqueKeys(old(View()).vectors.manifests)
      ensures View() == Publish(old(View()), d, generation, steps, torn, spared, now)
      ensures r.Ok? <==> steps >= 5
      ensures failing == {} ==> spared == {}
      ensures r.Ok? ==> d.jobId in intake.jobs && intake.jobs[d.jobId] == r.value && r.value.status == Succeeded
    {
      hide StoreValid, LiveKeys, Live, DraftStored, DraftKeys, DraftTexts, UniqueIds, UniqueKeys, Finish;
      ghost var s := View();
      spared := {};
      ValidIsUnique(s);
      DraftEntries(s, d);
      var pendingVectors := VectorEntriesOf(d, d.chunks);
      var vectorFile := PublishGenerationWithPending(d.scope, pendingVectors, steps >= 2);
      if vectorFile.Err? { return Err(vectorFile.error), spared; }
      PublishDraft(s, d, generation);
      var pendingTexts := TextEntriesOf(d.chunks);
      var published := PublishTextGenerationWithPending(d.scope, generation, pendingTexts, torn, steps - 2);
      if published.Err? { return Err(Interrupted), spared; }
      if steps == 4 { return Err(Interrupted), spared; }
      BeforeCommit(s, d, generation, torn);
      r, spared := FinishAttempt(d, generation, steps, failing, now);
    }

    method FinishAttempt(d: Draft, generation: Uuid, steps: nat, failing: set<TextPath>, now: nat)
      returns (r: Result<Job>, ghost spared: set<TextPath>)
      requires Valid() && DraftStored(View(), d)
      modifies this, text
      ensures View() == Finish(old(View()), d, generation, steps, spared, now)
      ensures failing == {} ==> spared == {}
      ensures r.Ok? && d.jobId in intake.jobs && intake.jobs[d.jobId] == r.value && r.value.status == Succeeded
    {
      hide StoreValid, ChunksOf, Materialize, ReadyVectors, ReadyTexts, ReadyGraphs, CleanupTexts;
      spared := {};
      CommitFacts(View(), d);
      r := CommitAttempt(d, generation, now);
      if steps > 5 {
        var removed;
        removed, spared := CleanupTextGenerations(failing);
        CleanupFrame(old(View()), d, generation, spared, now);
      }
    }

    // ------------------------------------------------- rebuild and boot

    method RebuildVectorWorkspace(scope: Scope, renamed: bool) returns (r: Result<nat>)
      requires Valid()
      modifies vectors
      ensures Valid() && (r.Ok? <==> renamed)
      ensures View() == if renamed then Apply(old(View()), RebuildVectorOp(scope, profile)) else old(View())
    {
      hide StoreValid, LiveKeys, UniqueIds, UniqueKeys;
      ghost var s := View();
      ApplyKeepsValid(s, RebuildVectorOp(scope, profile));
      var entries := ReadyVectorEntries(View(), scope, profile);
      var published := vectors.PublishGeneration(scope, profile, entries, renamed);
      if published.Err? { return Err(Interrupted); }
      return Ok(|entries|);
    }

    /** `steps` counts build, rename, activation and cleanup. */
    method RebuildTextWorkspace(scope: Scope, generation: Uuid, steps: nat, torn: map<Uuid, string>,
                                failing: set<TextPath>)
      returns (r: Result<nat>, ghost spared: set<TextPath>)
      requires Valid() && Published(scope, generation) !in text.directories
      modifies this, text
      ensures Valid() && View() == Apply(old(View()), RebuildTextOp(scope, generation, steps, torn, spared))
      ensures r.Ok? ==> steps >= 4 && spared == {}
      ensures steps >= 4 && failing == {} ==> r.Ok?
    {
      hide StoreValid, Live, UniqueIds, CleanupTexts, Activate;
      ghost var s := View();
      spared := {};
      RebuildTextIs(s, scope, generation, steps, torn, spared);
      var entries := ReadyTextEntries(View(), scope);
      var published := text.PublishGeneration(scope, generation, entries, torn, steps);
      if published.Err? { return Err(Interrupted), spared; }
      if steps == 2 { return Err(Interrupted), spared; }
      ActivateTextGeneration(scope, generation);
      if steps == 3 { return Err(Interrupted), spared; }
      var removed;
      removed, spared := CleanupTextGenerations(failing);
      RebuildTextIs(s, scope, generation, steps, torn, spared);
      if removed.Err? { return Err(Interrupted), spared; }
      return Ok(|entries|), spared;
    }

    method ActivateTextGeneration(scope: Scope, generation: Uuid)
      modifies this`textTables
      ensures textTables == old(textTables).(active := Activate(old(textTables).active, scope, generation))
    {
      var record := TextGeneration(scope, generation, PIPELINE_VERSION);
      textTables := textTables.(active := textTables.active[scope := record]);
    }

    method RebuildGraphWorkspace(scope: Scope) returns (r: Result<nat>, ghost ready: seq<Chunk>)
      requires Valid()
      modifies this`graph
      ensures Valid() && View() == Apply(old(View()), RebuildGraphOp(scope, ready))
      ensures ListsLive(View(), scope, ready) && r == Ok(|ready|)
      ensures forall other :: RowsOf(graph, other) == RowsOf(old(graph), other)
    {
      hide StoreValid, ListsLive, RowsOf, Rebuild, KeysMatch, ClearScope, Materialize, UniqueIds;
      ghost var s := View();
      var chunks := ReadyGraphChunks(View(), scope);
      ready := chunks;
      RebuildGraphIs(s, scope, ready);
      ApplyKeepsValid(s, RebuildGraphOp(scope, ready));
      graph := RebuiltGraph(graph, scope, chunks);
      return Ok(|chunks|), ready;
    }

    /** Rebuilds the vector file of every workspace that has a manifest, but not where writing fails (`broken`). */
    method ReconcileVectorProjection(broken: set<Scope>) returns (r: Result<()>)
      requires Valid()
      modifies vectors
      ensures Valid() && unchanged(this) && text.directories == old(text.directories)
      ensures broken == {} ==> r.Ok?
      ensures r.Ok? ==> forall scope :: scope in VectorScopes(vectorTables.manifests) ==>
                FileIsExact(View(), scope, profile)
    {
      hide StoreValid, Apply, FileIsExact, VectorScopes;
      var pending := VectorScopes(vectorTables.manifests);
      while pending != {}
        invariant Valid() && unchanged(this) && text.directories == old(text.directories)
        invariant forall scope :: scope in VectorScopes(vectorTables.manifests) && scope !in pending ==>
                    FileIsExact(View(), scope, profile)
      {
        var scope :| scope in pending;
        ghost var s := View();
        var rebuilt := RebuildVectorWorkspace(scope, scope !in broken);
        if rebuilt.Err? { return Err(Interrupted); }
        ReconcileFrame(s, RebuildVectorOp(scope, profile));
        ReconcileKeepsExact(s, RebuildVectorOp(scope, profile), scope, profile);
        forall other | other in VectorScopes(vectorTables.manifests) && other !in pending
          ensures FileIsExact(View(), other, profile)
        {
          ReconcileKeepsExact(s, RebuildVectorOp(scope, profile), other, profile);
        }
        pending := pending - {scope};
      }
      return Ok(());
    }

    /** Rebuilds and activates a text generation for every workspace that has a manifest, then clears the rest away. */
    method ReconcileTextProjection(generations: map<Scope, Uuid>, failing: set<TextPath>) returns (r: Result<()>)
      requires Valid()
      requires forall scope :: scope in TextScopes(textTables.manifests) ==>
                 scope in generations && Published(scope, generations[scope]) !in text.directories
      modifies this, text
      ensures Valid() && View() == old(View()).(texts := textTables, files := View().files)
      ensures vectors.files == old(vectors.files) && textTables.manifests == old(textTables.manifests)
      ensures failing == {} ==> r.Ok?
      ensures r.Ok? ==> forall p :: p in text.directories ==> IsActivePath(textTables.active, p)
    {
      hide StoreValid, Apply, TextScopes, RebuildText, IsActivePath;
      ghost var s0 := View();
      var pending := TextScopes(textTables.manifests);
      while pending != {}
        invariant Valid() && View() == s0.(texts := textTables, files := View().files)
        invariant vectors.files == old(vectors.files) && textTables.manifests == old(textTables.manifests)
        invariant forall scope :: scope in pending ==>
                    scope in generations && Published(scope, generations[scope]) !in text.directories
      {
        var scope :| scope in pending;
        ghost var s := View();
        var rebuilt, spared := RebuildTextWorkspace(scope, generations[scope], 4, map[], failing);
        RebuildTextIs(s, scope, generations[scope], 4, map[], spared);
        RebuildTextFrame(s, scope, generations[scope], 4, map[], spared);
        RebuildTextPaths(s, scope, generations[scope], 4, map[], spared);
        if rebuilt.Err? { return Err(Interrupted); }
        pending := pending - {scope};
      }
      ghost var s := View();
      var removed, spared := CleanupTextGenerations(failing);
      CleanupKeepsValid(s, spared);
      CleanupIs(s, spared);
      if removed.Err? { return Err(Interrupted); }
      return Ok(());
    }

    /** Rebuilds the graph of every workspace that has a manifest. */
    method ReconcileGraphProjection() returns (r: Result<nat>)
      requires Valid()
      modifies this`graph
      ensures Valid() && r.Ok?
      ensures forall other :: RowsOf(graph, other) == RowsOf(old(graph), other)
    {
      hide StoreValid, Apply, RowsOf, ListsLive;
      var pending := GraphScopes(graphManifests);
      var rebuilt := |pending|;
      while pending != {}
        invariant Valid()
        invariant forall other :: RowsOf(graph, other) == RowsOf(old(graph), other)
      {
        var scope :| scope in pending;
        var done, ready := RebuildGraphWorkspace(scope);
        pending := pending - {scope};
      }
      return Ok(rebuilt);
    }

    /** The three reconciliations, in the order of the boot sequence. */
    method ReconcileProjections(generations: map<Scope, Uuid>, broken: set<Scope>, failing: set<TextPath>)
      returns (r: Result<()>)
      requires Valid()
      requires forall scope :: scope in TextScopes(textTables.manifests) ==>
                 scope in generations && Published(scope, generations[scope]) !in text.directories
      modifies this, text, vectors
      ensures Valid() && intake == old(intake)
      ensures broken == {} && failing == {} ==> r.Ok?
      ensures r.Ok? ==> forall scope :: scope in VectorScopes(vectorTables.manifests) ==>
                FileIsExact(View(), scope, profile)
      ensures r.Ok? ==> forall p :: p in text.directories ==> IsActivePath(textTables.active, p)
    {
      hide StoreValid, TextScopes, VectorScopes, FileIsExact, RowsOf, IsActivePath;
      var vectorsDone := ReconcileVectorProjection(broken);
      if vectorsDone.Err? { return Err(Interrupted); }
      ghost var s1 := View();
      var textsDone := ReconcileTextProjection(generations, failing);
      if textsDone.Err? { return Err(Interrupted); }
      ghost var s2 := View();
      AllStayExact(s1, s2, VectorScopes(vectorTables.manifests), profile);
      var graphDone := ReconcileGraphProjection();
      AllStayExact(s2, View(), VectorScopes(vectorTables.manifests), profile);
      return Ok(());
    }

    /**
     * The boot sequence after a stop at any point. If no file operation fails, no job stays leased,
     * every vector file of the current profile holds exactly the ready keys, and only active
     * generations are left on disk.
     */
    method Boot(now: nat, generations: map<Scope, Uuid>, broken: set<Scope>, failing: set<TextPath>)
      returns (r: Result<()>)
      requires Valid()
      requires forall scope :: scope in TextScopes(textTables.manifests) ==>
                 scope in generations && Published(scope, generations[scope]) !in text.directories
      modifies this, text, vectors
      ensures Valid() && intake == Recover(old(intake), now)
      ensures broken == {} && failing == {} ==> r.Ok?
      ensures r.Ok? ==> LeasedJobs(intake.jobs) == {}
      ensures r.Ok? ==> forall scope :: scope in VectorScopes(vectorTables.manifests) ==>
                FileIsExact(View(), scope, profile)
      ensures r.Ok? ==> forall p :: p in text.directories ==> IsActivePath(textTables.active, p)
    {
      hide StoreValid, Apply, TextScopes, VectorScopes, FileIsExact, IsActivePath, Recover;
      ghost var s := View();
      IntakeStep(s, RecoverOp(now));
      RecoverKeepsValid(s.intake, now);
      var recovered := RecoverIncompleteIngestionJobs(now);
      r := ReconcileProjections(generations, broken, failing);
    }

    /** The end of a write transaction: every table it touched takes its new content at once. */
    method WriteTables(tables: Store)
      requires tables.files == View().files
      modifies this
      ensures View() == tables
    {
      intake, chunks, vectorTables := tables.intake, tables.chunks, tables.vectors;
      textTables, graphManifests, graph := tables.texts, tables.graphManifests, tables.graph;
    }
  }
}
