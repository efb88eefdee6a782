/** Whole runs: any interleaving of requests, worker steps, rebuilds, failures, crashes and reboots. */
module StoreRuns {
  import opened Basics
  import opened GraphProjection
  import opened StoreTypes
  import opened IntakeSpec
  import opened IntakeProofs
  import opened StoreSpec
  import opened PrepareProofs
  import opened PublishProofs
  import opened CommitProofs
  import Chunker
  import ChunkerTheorems

  /**
   * What the server can do to its durable state. `steps` is how many durable steps of a multi-phase
   * operation happen before an error or a crash ends it; volatile state is never part of the store,
   * so a crash is an operation cut short, followed by the operations of the next boot.
   */
  datatype Op =
    | EnqueueOp(req: NewDocument, jobId: Uuid, documentId: Uuid, now: nat)
    | ClaimOp(now: nat)
    | ProcessOp(jobId: Uuid, ids: seq<Uuid>, generation: Uuid, profile: Profile, steps: nat, torn: map<Uuid, string>,
                spared: set<TextPath>, now: nat)
    | FailOp(jobId: Uuid, error: string, now: nat)
    | OwnerRetryOp(jobId: Uuid, scope: Scope, now: nat)
    | RecoverOp(now: nat)
    | RebuildVectorOp(scope: Scope, profile: Profile)
    | RebuildTextOp(scope: Scope, generation: Uuid, steps: nat, torn: map<Uuid, string>, spared: set<TextPath>)
    | RebuildGraphOp(scope: Scope, chunks: seq<Chunk>)
    | CleanupOp(spared: set<TextPath>)

  /** `process_claimed_ingestion_job` gets past its checks, with ids never drawn before. */
  ghost predicate CanProcess(s: Store, jobId: Uuid, ids: seq<Uuid>, generation: Uuid, profile: Profile) {
    && jobId in s.intake.jobs && jobId in s.intake.payloads && s.intake.jobs[jobId].status == Processing
    && FreshIds(s, ids, |ChunksOf(s.intake.payloads[jobId])|)
    && var d := DraftOf(s, jobId, ids, profile);
       d.firstKey + |d.chunks| <= U64_MAX && Published(d.scope, generation) !in s.files.texts
  }

  /** The durable steps after the first transaction: two file publications, one commit, one cleanup. */
  ghost function Publish(s1: Store, d: Draft, generation: Uuid, steps: nat, torn: map<Uuid, string>,
                         spared: set<TextPath>, now: nat): Store
    requires UniqueIds(s1.chunks) && UniqueKeys(s1.vectors.manifests) && DraftStored(s1, d)
  {
    var s2 := WriteVectorFile(s1, d.scope, d.profile, LiveKeys(s1, d.scope, d.profile) + DraftKeys(d, d.chunks));
    var texts := Live(s2, d.scope) + DraftTexts(d.chunks);
    if steps <= 1 then s1
    else if steps == 2 then s2
    else if steps == 3 then WriteTextTemporary(s2, d.scope, generation, torn)
    else
      var s3 := RenameText(s2, d.scope, generation, texts);
      if steps == 4 then s3 else Finish(s3, d, generation, steps, spared, now)
  }

  ghost function Finish(s3: Store, d: Draft, generation: Uuid, steps: nat, spared: set<TextPath>, now: nat): Store
    requires DraftOfJob(s3.intake, d)
  {
    var s4 := Commit(s3, d, generation, now);
    if steps <= 5 then s4 else CleanupTexts(s4, spared)
  }

  /** The store after the first `steps` durable steps of processing a claimed job. */
  ghost function Process(s: Store, d: Draft, generation: Uuid, steps: nat, torn: map<Uuid, string>,
                         spared: set<TextPath>, now: nat): Store
    requires StoreValid(s) && DraftFresh(s, d)
  {
    if steps == 0 then s
    else
      PrepareKeepsValid(s, d);
      Publish(Prepare(s, d), d, generation, steps, torn, spared, now)
  }

  ghost function RebuildText(s: Store, scope: Scope, generation: Uuid, steps: nat, torn: map<Uuid, string>,
                             spared: set<TextPath>): Store
    requires UniqueIds(s.chunks)
  {
    if steps == 0 then s
    else if steps == 1 then WriteTextTemporary(s, scope, generation, torn)
    else
      var s1 := RenameText(s, scope, generation, Live(s, scope));
      if steps == 2 then s1
      else
        var s2 := s1.(texts := s1.texts.(active := Activate(s1.texts.active, scope, generation)));
        if steps == 3 then s2 else CleanupTexts(s2, spared)
  }

  /** `chunks` lists the live chunks of the workspace once each. */
  ghost predicate ListsLive(s: Store, scope: Scope, chunks: seq<Chunk>)
    requires UniqueIds(s.chunks)
  {
    Lists(chunks, Live(s, scope))
  }

  /** `chunks` lists the given texts once each. */
  ghost predicate Lists(chunks: seq<Chunk>, texts: map<Uuid, string>) {
    DistinctIds(chunks) && texts.Keys == IdsOf(chunks) && forall c :: c in chunks ==> texts[c.id] == c.content
  }

  /** One operation; an operation whose checks fail changes nothing. */
  ghost function Apply(s: Store, op: Op): Store
    requires StoreValid(s)
  {
    match op
    case EnqueueOp(req, jobId, documentId, now) =>
      if jobId in s.intake.jobs || documentId in s.intake.documents then s
      else s.(intake := Enqueue(s.intake, req, jobId, documentId, now).0)
    case ClaimOp(now) => s.(intake := Claim(s.intake, now).0)
    case FailOp(jobId, error, now) => s.(intake := Fail(s.intake, jobId, error, now).0)
    case OwnerRetryOp(jobId, scope, now) => s.(intake := OwnerRetry(s.intake, jobId, scope, now).0)
    case RecoverOp(now) => s.(intake := Recover(s.intake, now))
    case ProcessOp(jobId, ids, generation, profile, steps, torn, spared, now) =>
      if CanProcess(s, jobId, ids, generation, profile) then
        CanProcessIsFresh(s, jobId, ids, generation, profile);
        Process(s, DraftOf(s, jobId, ids, profile), generation, steps, torn, spared, now)
      else s
    case RebuildVectorOp(scope, profile) => WriteVectorFile(s, scope, profile, LiveKeys(s, scope, profile))
    case RebuildTextOp(scope, generation, steps, torn, spared) =>
      if Published(scope, generation) in s.files.texts then s
      else RebuildText(s, scope, generation, steps, torn, spared)
    case RebuildGraphOp(scope, chunks) =>
      if ListsLive(s, scope, chunks) then s.(graph := Rebuild(s.graph, scope, chunks)) else s
    case CleanupOp(spared) => CleanupTexts(s, spared)
  }

  // ------------------------------------------------- every operation keeps everything

  lemma CanProcessIsFresh(s: Store, jobId: Uuid, ids: seq<Uuid>, generation: Uuid, profile: Profile)
    requires StoreValid(s) && CanProcess(s, jobId, ids, generation, profile)
    ensures DraftFresh(s, DraftOf(s, jobId, ids, profile))
  {
    hide ChunksOf, RowsMatch, SucceededComplete, ManifestsAgree, ManifestsExact, KeysAllocated, UniqueKeys, UniqueIds,
         VectorsPublished, TextsPublished, GraphPublished, VectorFilesSound, DedupExact, IdempotencyExact;
    assert JobLinked(s.intake.documents, s.intake.jobs[jobId], jobId);
    assert JobWellFormed(s.intake.jobs[jobId], s.intake.payloads[jobId]);
    PayloadHasChunks(s.intake.payloads[jobId]);
  }

  /** Admission rejects blank content, so "no indexable chunks" is unreachable. */
  lemma PayloadHasChunks(content: string)
    ensures ChunksOf(content) == [] <==> Chunker.IsBlank(content)
    ensures forall c :: c in ChunksOf(content) ==> |c| <= Chunker.MAXIMUM_CHARS
  {
    ChunkerTheorems.ChunksFitAndExist(content, Chunker.MAXIMUM_CHARS);
  }

  lemma PublishDraft(s: Store, d: Draft, generation: Uuid)
    requires StoreValid(s) && DraftStored(s, d)
    ensures var s2 := WriteVectorFile(s, d.scope, d.profile, LiveKeys(s, d.scope, d.profile) + DraftKeys(d, d.chunks));
      && StoreValid(s2) && DraftStored(s2, d)
      && (forall scope :: Live(s2, scope) == Live(s, scope))
      && VectorFile(s2.files, d.scope, d.profile) == LiveKeys(s2, d.scope, d.profile) + DraftKeys(d, d.chunks)
  {
    hide IntakeValid, RowsMatch, SucceededComplete, ManifestsAgree, ManifestsExact, KeysAllocated, UniqueKeys,
         UniqueIds, VectorsPublished, TextsPublished, GraphPublished, VectorFilesSound, DraftOfJob, LiveIn, KeyedBy,
         DraftKeys, VectorEntrySound;
    LiveKeysSound(s, d.scope, d.profile);
    DraftKeysSound(s, d);
    DraftKeysFresh(s, d);
    var entries := LiveKeys(s, d.scope, d.profile) + DraftKeys(d, d.chunks);
    assert Contains(entries, LiveKeys(s, d.scope, d.profile));
    WriteVectorKeepsValid(s, d.scope, d.profile, entries);
    assert forall c :: c in d.chunks ==> ChunkStored(s, d, c);
  }

  lemma TextStepsKeepValid(s: Store, scope: Scope, generation: Uuid, torn: map<Uuid, string>, texts: map<Uuid, string>)
    requires StoreValid(s) && Published(scope, generation) !in s.files.texts
    ensures StoreValid(WriteTextTemporary(s, scope, generation, torn))
    ensures StoreValid(RenameText(s, scope, generation, texts))
  {
    hide StoreValid;
    TextActiveInFiles(s);
    WriteTextKeepsValid(s, WriteTextTemporary(s, scope, generation, torn).files.texts);
    WriteTextKeepsValid(s, RenameText(s, scope, generation, texts).files.texts);
  }

  lemma TextActiveInFiles(s: Store)
    requires StoreValid(s)
    ensures forall p :: IsActivePath(s.texts.active, p) ==> p in s.files.texts
  {
    forall p | IsActivePath(s.texts.active, p)
      ensures p in s.files.texts
    {
      assert TextExact(s.texts.active, s.files.texts, p.scope, Live(s, p.scope));
    }
  }

  lemma ProcessKeepsValid(s: Store, d: Draft, generation: Uuid, steps: nat, torn: map<Uuid, string>,
                          spared: set<TextPath>, now: nat)
    requires StoreValid(s) && DraftFresh(s, d) && Published(d.scope, generation) !in s.files.texts
    ensures var s' := Process(s, d, generation, steps, torn, spared, now);
      && StoreValid(s') && Extends(s.intake, s'.intake)
      && (forall scope :: Live(s', scope) ==
            if scope == d.scope && steps >= 5 then Live(s, scope) + DraftTexts(d.chunks) else Live(s, scope))
  {
    hide RecordsValid, VectorsPublished, TextsPublished, GraphPublished, VectorFilesSound, DraftFresh, DraftStored,
         LiveIn, DraftTexts, Prepare, UniqueIds, Extends, UniqueKeys, Publish;
    ValidRecords(s);
    ExtendsReflexive(s.intake);
    if steps > 0 {
      PrepareKeepsValid(s, d);
      PrepareFrame(s, d);
      AfterPrepare(Prepare(s, d), d, generation, steps, torn, spared, now);
    }
  }

  lemma PrepareFrame(s: Store, d: Draft)
    ensures Prepare(s, d).intake == s.intake && Prepare(s, d).files == s.files
  {
  }

  lemma AfterPrepare(s: Store, d: Draft, generation: Uuid, steps: nat, torn: map<Uuid, string>, spared: set<TextPath>,
                     now: nat)
    requires StoreValid(s) && DraftStored(s, d) && Published(d.scope, generation) !in s.files.texts
    ensures var s' := Publish(s, d, generation, steps, torn, spared, now);
      && StoreValid(s') && Extends(s.intake, s'.intake)
      && (forall scope :: Live(s', scope) ==
            if scope == d.scope && steps >= 5 then Live(s, scope) + DraftTexts(d.chunks) else Live(s, scope))
  {
    hide StoreValid, DraftStored, LiveIn, DraftKeys, DraftTexts, KeyedBy, UniqueIds, Extends, UniqueKeys, Finish;
    StoredDraft(s, d);
    BeforeCommit(s, d, generation, torn);
    if steps >= 5 {
      var s2 := WriteVectorFile(s, d.scope, d.profile, LiveKeys(s, d.scope, d.profile) + DraftKeys(d, d.chunks));
      var s3 := RenameText(s2, d.scope, generation, Live(s2, d.scope) + DraftTexts(d.chunks));
      AfterRename(s3, d, generation, steps, spared, now);
    }
  }

  lemma StoredDraft(s: Store, d: Draft)
    requires StoreValid(s) && DraftStored(s, d)
    ensures UniqueIds(s.chunks) && UniqueKeys(s.vectors.manifests) && Extends(s.intake, s.intake)
  {
    hide RecordsValid, VectorsPublished, TextsPublished, GraphPublished, VectorFilesSound, DraftStored, UniqueIds,
         UniqueKeys, Extends;
    ValidRecords(s);
    RecordsAreUnique(s);
    ExtendsReflexive(s.intake);
  }

  /** The two file publications, each after any of its steps. */
  lemma BeforeCommit(s: Store, d: Draft, generation: Uuid, torn: map<Uuid, string>)
    requires StoreValid(s) && DraftStored(s, d) && Published(d.scope, generation) !in s.files.texts
    ensures UniqueIds(s.chunks) && UniqueKeys(s.vectors.manifests)
    ensures var s2 := WriteVectorFile(s, d.scope, d.profile, LiveKeys(s, d.scope, d.profile) + DraftKeys(d, d.chunks));
      var s3 := RenameText(s2, d.scope, generation, Live(s2, d.scope) + DraftTexts(d.chunks));
      && StoreValid(s2) && StoreValid(WriteTextTemporary(s2, d.scope, generation, torn)) && StoreValid(s3)
      && DraftStored(s3, d) && DraftPublished(s3, d, generation)
  {
    hide StoreValid, DraftOfJob, LiveIn, DraftKeys, DraftTexts, KeyedBy, UniqueIds, UniqueKeys;
    StoredDraft(s, d);
    PublishDraft(s, d, generation);
    var s2 := WriteVectorFile(s, d.scope, d.profile, LiveKeys(s, d.scope, d.profile) + DraftKeys(d, d.chunks));
    var texts := Live(s2, d.scope) + DraftTexts(d.chunks);
    TextStepsKeepValid(s2, d.scope, generation, torn, texts);
    StoredElsewhere(s2, RenameText(s2, d.scope, generation, texts), d);
  }

  lemma AfterRename(s: Store, d: Draft, generation: Uuid, steps: nat, spared: set<TextPath>, now: nat)
    requires StoreValid(s) && DraftStored(s, d) && DraftPublished(s, d, generation)
    ensures var s' := Finish(s, d, generation, steps, spared, now);
      && StoreValid(s') && Extends(s.intake, s'.intake)
      && (forall scope :: Live(s', scope) ==
            if scope == d.scope then Live(s, scope) + DraftTexts(d.chunks) else Live(s, scope))
  {
    hide RecordsValid, VectorsPublished, TextsPublished, GraphPublished, VectorFilesSound, DraftOfJob, LiveIn,
         DraftTexts, UniqueIds, Extends, Commit, DraftPublished;
    DraftDocument(s.intake, d);
    CommitKeepsValid(s, d, generation, now);
    CleanupKeepsValid(Commit(s, d, generation, now), spared);
  }

  lemma StoredElsewhere(s: Store, s': Store, d: Draft)
    requires DraftStored(s, d) && s' == s.(files := s'.files)
    ensures DraftStored(s', d)
  {
    hide DraftOfJob;
    assert forall c :: c in d.chunks ==> ChunkStored(s, d, c);
  }

  // ------------------------------------------------- intake operations

  lemma SetJobAddsNoSuccess(t: Intake, job: Job)
    requires job.documentId in t.documents && job.status != Succeeded
    ensures NoNewSuccess(t, SetJob(t, job))
  {
  }

  lemma IntakeOpsAddNoSuccess(t: Intake, op: Op)
    requires IntakeValid(t) && IsIntakeOp(t, op)
    ensures IntakeValid(IntakeAfter(t, op)) && Extends(t, IntakeAfter(t, op)) && NoNewSuccess(t, IntakeAfter(t, op))
  {
    hide JobsLinked, JobsWellFormed, DedupExact, IdempotencyExact, Chunker.IsBlank, Power2, ValidateDocument, Extends,
         SetJob;
    ExtendsReflexive(t);
    match op
    case EnqueueOp(req, jobId, documentId, now) =>
      EnqueueKeepsValid(t, req, jobId, documentId, now);
    case ClaimOp(now) =>
      ClaimKeepsValid(t, now);
      if EligibleJobs(t, now) != {} {
        var j := Least(EligibleJobs(t, now));
        SetJobAddsNoSuccess(t, Leased(t.jobs[j], now));
      }
    case FailOp(jobId, error, now) =>
      FailKeepsValid(t, jobId, error, now);
      if Fail(t, jobId, error, now).1.Ok? { SetJobAddsNoSuccess(t, Failed(t.jobs[jobId], error, now)); }
    case OwnerRetryOp(jobId, scope, now) =>
      OwnerRetryKeepsValid(t, jobId, scope, now);
      if OwnerRetry(t, jobId, scope, now).0 != t {
        SetJobAddsNoSuccess(t, Requeued(t.jobs[jobId], now).(attempts := 0, lastError := None));
      }
    case RecoverOp(now) =>
      RecoverKeepsValid(t, now);
      RecoverAddsNoSuccess(t, now);
  }

  lemma RecoverAddsNoSuccess(t: Intake, now: nat)
    ensures NoNewSuccess(t, Recover(t, now))
  {
  }

  predicate IsIntakeOp(t: Intake, op: Op) {
    match op
    case EnqueueOp(req, jobId, documentId, now) => jobId !in t.jobs && documentId !in t.documents
    case ClaimOp(_) => true
    case FailOp(_, _, _) => true
    case OwnerRetryOp(_, _, _) => true
    case RecoverOp(_) => true
    case _ => false
  }

  function IntakeAfter(t: Intake, op: Op): Intake
    requires IsIntakeOp(t, op)
  {
    match op
    case EnqueueOp(req, jobId, documentId, now) => Enqueue(t, req, jobId, documentId, now).0
    case ClaimOp(now) => Claim(t, now).0
    case FailOp(jobId, error, now) => Fail(t, jobId, error, now).0
    case OwnerRetryOp(jobId, scope, now) => OwnerRetry(t, jobId, scope, now).0
    case RecoverOp(now) => Recover(t, now)
  }

  // ------------------------------------------------- rebuild operations

  lemma RebuildTextKeepsValid(s: Store, scope: Scope, generation: Uuid, steps: nat, torn: map<Uuid, string>,
                              spared: set<TextPath>)
    requires StoreValid(s) && Published(scope, generation) !in s.files.texts
    ensures StoreValid(RebuildText(s, scope, generation, steps, torn, spared))
    ensures RebuildText(s, scope, generation, steps, torn, spared).intake == s.intake
  {
    hide RecordsValid, VectorsPublished, TextsPublished, GraphPublished, VectorFilesSound, LiveIn, UniqueIds;
    ValidRecords(s);
    TextStepsKeepValid(s, scope, generation, torn, Live(s, scope));
    var s1 := RenameText(s, scope, generation, Live(s, scope));
    ActivateKeepsValid(s1, scope, generation);
    CleanupKeepsValid(s1.(texts := s1.texts.(active := Activate(s1.texts.active, scope, generation))), spared);
  }

  lemma RebuildVectorKeepsValid(s: Store, scope: Scope, profile: Profile)
    requires StoreValid(s)
    ensures StoreValid(WriteVectorFile(s, scope, profile, LiveKeys(s, scope, profile)))
    ensures WriteVectorFile(s, scope, profile, LiveKeys(s, scope, profile)).intake == s.intake
    ensures VectorFile(WriteVectorFile(s, scope, profile, LiveKeys(s, scope, profile)).files, scope, profile)
         == LiveKeys(s, scope, profile)
  {
    hide IntakeValid, RowsMatch, SucceededComplete, ManifestsAgree, ManifestsExact, KeysAllocated, UniqueKeys,
         UniqueIds, VectorsPublished, TextsPublished, GraphPublished, VectorFilesSound, LiveIn, KeyedBy,
         VectorEntrySound;
    LiveKeysSound(s, scope, profile);
    WriteVectorKeepsValid(s, scope, profile, LiveKeys(s, scope, profile));
  }

  /** Whatever happens, and wherever it is cut short, the store stays valid and forgets nothing. */
  lemma ApplyKeepsValid(s: Store, op: Op)
    requires StoreValid(s)
    ensures StoreValid(Apply(s, op)) && Extends(s.intake, Apply(s, op).intake)
  {
    hide RecordsValid, VectorsPublished, TextsPublished, GraphPublished, VectorFilesSound, LiveIn, LiveKeys, UniqueIds,
         UniqueKeys, Extends, Process, RebuildText, CanProcess, ListsLive, Rebuild, CleanupTexts, DraftFresh, Enqueue,
         Claim, Fail, OwnerRetry, Recover, IntakeValid;
    ValidRecords(s);
    ExtendsReflexive(s.intake);
    if IsIntakeOp(s.intake, op) {
      RecordsHaveIntake(s);
      IntakeOpsAddNoSuccess(s.intake, op);
      IntakeStepKeepsValid(s, IntakeAfter(s.intake, op));
    } else {
      ApplyRest(s, op);
    }
  }

  lemma RecordsHaveIntake(s: Store)
    requires RecordsValid(s)
    ensures IntakeValid(s.intake)
  {
  }

  lemma ApplyRest(s: Store, op: Op)
    requires StoreValid(s) && !IsIntakeOp(s.intake, op)
    ensures StoreValid(Apply(s, op)) && Extends(s.intake, Apply(s, op).intake)
  {
    hide RecordsValid, VectorsPublished, TextsPublished, GraphPublished, VectorFilesSound, LiveIn, LiveKeys, UniqueIds,
         UniqueKeys, Extends, Process, ListsLive, Rebuild, DraftFresh, RebuildText, WriteVectorFile;
    ValidRecords(s);
    ExtendsReflexive(s.intake);
    match op
    case EnqueueOp(_, _, _, _) =>
    case ProcessOp(jobId, ids, generation, profile, steps, torn, spared, now) =>
      if CanProcess(s, jobId, ids, generation, profile) {
        CanProcessIsFresh(s, jobId, ids, generation, profile);
        ProcessKeepsValid(s, DraftOf(s, jobId, ids, profile), generation, steps, torn, spared, now);
      }
    case RebuildVectorOp(scope, profile) => RebuildVectorKeepsValid(s, scope, profile);
    case RebuildTextOp(scope, generation, steps, torn, spared) =>
      if Published(scope, generation) !in s.files.texts {
        RebuildTextKeepsValid(s, scope, generation, steps, torn, spared);
      }
    case RebuildGraphOp(scope, chunks) =>
      if ListsLive(s, scope, chunks) { RebuildListed(s, scope, chunks); }
    case CleanupOp(spared) => CleanupKeepsValid(s, spared);
  }

  lemma RebuildListed(s: Store, scope: Scope, chunks: seq<Chunk>)
    requires StoreValid(s) && ListsLive(s, scope, chunks)
    ensures StoreValid(s.(graph := Rebuild(s.graph, scope, chunks)))
  {
    hide RecordsValid, VectorsPublished, TextsPublished, GraphPublished, VectorFilesSound, LiveIn, UniqueIds, Rebuild;
    RebuildKeepsValid(s, scope, chunks);
  }

  // ------------------------------------------------- runs

  lemma EmptyRecords()
    ensures RecordsValid(EMPTY_STORE)
    ensures forall scope :: Live(EMPTY_STORE, scope) == map[]
  {
    hide RowMatches, RowsComplete, JobLinked, JobWellFormed, RowManifested, SameManifest;
  }

  lemma EmptyIsValid()
    ensures StoreValid(EMPTY_STORE)
  {
    hide RecordsValid, Live, LiveIn, UniqueIds, UniqueKeys, VectorEntrySound;
    EmptyRecords();
    assert UniqueIds(EMPTY_STORE.chunks) && UniqueKeys(EMPTY_STORE.vectors.manifests)
      by { RecordsAreUnique(EMPTY_STORE); }
    forall scope
      ensures RowsOf(EMPTY, scope) == GraphFrom(scope, map[])
    {
      NothingFromNothing(scope);
    }
  }

  ghost function Run(s: Store, ops: seq<Op>): (s': Store)
    requires StoreValid(s)
    ensures StoreValid(s')
    decreases |ops|
  {
    if ops == [] then s
    else
      ApplyKeepsValid(s, ops[0]);
      Run(Apply(s, ops[0]), ops[1..])
  }

  /** Admission records only grow, and succeeded documents never change again. */
  lemma {:induction false} RunExtends(s: Store, ops: seq<Op>)
    requires StoreValid(s)
    ensures Extends(s.intake, Run(s, ops).intake)
    decreases |ops|
  {
    hide StoreValid, Apply, Extends;
    ExtendsReflexive(s.intake);
    if ops != [] {
      ApplyKeepsValid(s, ops[0]);
      RunExtends(Apply(s, ops[0]), ops[1..]);
      ExtendsTransitive(s.intake, Apply(s, ops[0]).intake, Run(s, ops).intake);
    }
  }
}
