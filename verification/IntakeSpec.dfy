/** Admission and the job state machine: what each redb transaction does to the intake tables. */
module IntakeSpec {
  import opened Basics
  import opened StoreTypes
  import Text
  import Chunker

  // ------------------------------------------------------------ enqueue

  function DedupKeyOf(req: NewDocument): DedupKey {
    DedupKey(req.scope, Sha256(req.content), PIPELINE_VERSION)
  }

  function IdempotencyKeyOf(scope: Scope, key: string): IdempotencyKey {
    IdempotencyKey(scope, Sha256(key))
  }

  function ValidateDocument(req: NewDocument): Option<Failure> {
    if Chunker.IsBlank(req.scope.organization) || Chunker.IsBlank(req.scope.workspace) then Some(EmptyScope)
    else if Chunker.IsBlank(req.name) then Some(EmptyName)
    else if Chunker.IsBlank(req.content) then Some(EmptyContent)
    else if req.idempotencyKey.Some? && Chunker.IsBlank(req.idempotencyKey.value) then Some(EmptyIdempotencyKey)
    else if req.idempotencyKey.Some? && Text.Utf8Len(req.idempotencyKey.value) > 256 then Some(IdempotencyKeyTooLong)
    else None
  }

  /** The idempotency index is consulted first, the content index second. */
  function ExistingJob(t: Intake, req: NewDocument): Option<Uuid> {
    if req.idempotencyKey.Some? && IdempotencyKeyOf(req.scope, req.idempotencyKey.value) in t.idempotency
    then Some(t.idempotency[IdempotencyKeyOf(req.scope, req.idempotencyKey.value)])
    else if DedupKeyOf(req) in t.dedup then Some(t.dedup[DedupKeyOf(req)])
    else None
  }

  function NewJob(req: NewDocument, jobId: Uuid, documentId: Uuid, now: nat): Job {
    Job(jobId, documentId, req.scope, Queued, 0, PIPELINE_VERSION, Sha256(req.content), req.idempotencyKey, None,
        Some(now), None, now)
  }

  function NewDocumentRow(req: NewDocument, jobId: Uuid, documentId: Uuid): Document {
    Document(documentId, req.scope, req.name, req.source, Sha256(req.content), 0, jobId, Queued)
  }

  function Admit(t: Intake, req: NewDocument, jobId: Uuid, documentId: Uuid, now: nat): Intake {
    Intake(t.documents[documentId := NewDocumentRow(req, jobId, documentId)],
           t.jobs[jobId := NewJob(req, jobId, documentId, now)],
           t.payloads[jobId := req.content],
           t.dedup[DedupKeyOf(req) := jobId],
           if req.idempotencyKey.Some?
            then t.idempotency[IdempotencyKeyOf(req.scope, req.idempotencyKey.value) := jobId]
           else t.idempotency)
  }

  /** `enqueue_document` with the two ids it would draw for a new job. */
  function Enqueue(t: Intake, req: NewDocument, jobId: Uuid, documentId: Uuid, now: nat): (Intake, Result<Receipt>) {
    var invalid := ValidateDocument(req);
    if invalid.Some? then (t, Err(invalid.value))
    else
      var existing := ExistingJob(t, req);
      if existing.Some? then
        if existing.value !in t.jobs then (t, Err(MissingJob))
        else
          var job := t.jobs[existing.value];
          if job.documentId !in t.documents then (t, Err(MissingDocument))
          else (t, Ok(Receipt(t.documents[job.documentId], job, true)))
      else
        (Admit(t, req, jobId, documentId, now),
         Ok(Receipt(NewDocumentRow(req, jobId, documentId), NewJob(req, jobId, documentId, now), false)))
  }

  // ------------------------------------------------- job state machine

  /** Rewrites a job and the status of its document together. */
  function SetJob(t: Intake, job: Job): Intake
    requires job.documentId in t.documents
  {
    t.(jobs := t.jobs[job.id := job],
       documents := t.documents[job.documentId := t.documents[job.documentId].(status := job.status)])
  }

  predicate IsEligible(job: Job, now: nat) {
    job.status == Queued || (job.status == RetryWait && job.nextAttemptAt.Some? && job.nextAttemptAt.value <= now)
  }

  function EligibleJobs(t: Intake, now: nat): set<Uuid> {
    set j | j in t.jobs && IsEligible(t.jobs[j], now)
  }

  function Leased(job: Job, now: nat): (r: Job)
    ensures r.id == job.id && r.documentId == job.documentId
  {
    job.(status := Processing, attempts := job.attempts + 1, nextAttemptAt := None,
         leaseExpiresAt := Some(now + INGESTION_LEASE_MS), updatedAt := now)
  }

  /** `claim_next_ingestion_job`: the eligible job with the least id, if any. */
  function Claim(t: Intake, now: nat): (Intake, Result<Option<ClaimedJob>>) {
    var eligible := EligibleJobs(t, now);
    if eligible == {} then (t, Ok(None))
    else
      var j := Least(eligible);
      var job := Leased(t.jobs[j], now);
      if job.documentId !in t.documents then (t, Err(MissingDocument))
      else if j !in t.payloads then (t, Err(MissingPayload))
      else (SetJob(t, job), Ok(Some(ClaimedJob(job, t.payloads[j]))))
  }

  function BackoffMs(attempt: nat): nat {
    1_000 * Power2(if attempt > 0 then attempt - 1 else 0)
  }

  /** `2_u32.saturating_pow(n)`. */
  function Power2(n: nat): nat {
    if n >= 32 then 0xFFFF_FFFF else if n == 0 then 1 else 2 * Power2(n - 1)
  }

  function Failed(job: Job, error: string, now: nat): (r: Job)
    ensures r.id == job.id && r.documentId == job.documentId
  {
    var j := job.(lastError := Some(if |error| <= 512 then error else error[..512]), leaseExpiresAt := None,
                  updatedAt := now);
    if job.attempts >= MAX_INGESTION_ATTEMPTS then j.(status := DeadLetter, nextAttemptAt := None)
    else j.(status := RetryWait, nextAttemptAt := Some(now + BackoffMs(job.attempts)))
  }

  /** `fail_claimed_ingestion_job`. */
  function Fail(t: Intake, jobId: Uuid, error: string, now: nat): (Intake, Result<Job>) {
    if Chunker.IsBlank(error) then (t, Err(EmptyError))
    else if jobId !in t.jobs then (t, Err(MissingJob))
    else if t.jobs[jobId].status != Processing then (t, Err(NotProcessing))
    else if t.jobs[jobId].documentId !in t.documents then (t, Err(MissingDocument))
    else
      var job := Failed(t.jobs[jobId], error, now);
      (SetJob(t, job), Ok(job))
  }

  function Requeued(job: Job, now: nat): (r: Job)
    ensures r.id == job.id && r.documentId == job.documentId
  {
    job.(status := Queued, leaseExpiresAt := None, nextAttemptAt := Some(now), updatedAt := now)
  }

  /** `retry_dead_letter_ingestion_job`. */
  function OwnerRetry(t: Intake, jobId: Uuid, scope: Scope, now: nat): (Intake, Result<Option<Job>>) {
    if jobId !in t.jobs then (t, Ok(None))
    else
      var job := t.jobs[jobId];
      if job.scope != scope then (t, Err(WrongWorkspace))
      else if job.status != DeadLetter then (t, Err(NotDeadLetter))
      else if job.documentId !in t.documents then (t, Err(MissingDocument))
      else
        var job' := Requeued(job, now).(attempts := 0, lastError := None);
        (SetJob(t, job'), Ok(Some(job')))
  }

  function RecoverJob(job: Job, now: nat): Job {
    if job.status == Processing then Requeued(job, now) else job
  }

  function RecoverDocument(d: Document, jobs: map<Uuid, Job>): Document {
    if d.jobId in jobs && jobs[d.jobId].status == Processing then d.(status := Queued) else d
  }

  /** `recover_incomplete_ingestion_jobs`: every lease left by a dead process is returned. */
  function Recover(t: Intake, now: nat): Intake {
    t.(jobs := map j | j in t.jobs :: RecoverJob(t.jobs[j], now),
       documents := map d | d in t.documents :: RecoverDocument(t.documents[d], t.jobs))
  }

  /** The last writes of a successful `process_claimed_ingestion_job`. */
  function Succeed(t: Intake, jobId: Uuid, chunkCount: nat, now: nat): Intake
    requires jobId in t.jobs && t.jobs[jobId].documentId in t.documents
  {
    var t' := SetJob(t, SucceededJob(t.jobs[jobId], now));
    var d := t.jobs[jobId].documentId;
    t'.(documents := t'.documents[d := t'.documents[d].(chunkCount := chunkCount)])
  }

  function SucceededJob(job: Job, now: nat): (r: Job)
    ensures r.id == job.id && r.documentId == job.documentId
  {
    job.(status := Succeeded, lastError := None, nextAttemptAt := None, leaseExpiresAt := None, updatedAt := now)
  }

  // ------------------------------------------------------------ invariant

  predicate StatusFields(job: Job) {
    && (job.leaseExpiresAt.Some? <==> job.status == Processing)
    && (job.nextAttemptAt.Some? <==> job.status == Queued || job.status == RetryWait)
    && (job.status == Processing || job.status == RetryWait || job.status == DeadLetter || job.status == Succeeded
        ==> job.attempts >= 1)
    && (job.status == RetryWait ==> job.attempts < MAX_INGESTION_ATTEMPTS)
    && (job.status == DeadLetter ==> job.attempts >= MAX_INGESTION_ATTEMPTS)
  }

  predicate JobLinked(documents: map<Uuid, Document>, job: Job, j: Uuid) {
    && job.id == j && job.documentId in documents
    && var d := documents[job.documentId];
       d.jobId == j && d.scope == job.scope && d.status == job.status && d.contentSha == job.inputSha
  }

  predicate DocumentLinked(jobs: map<Uuid, Job>, document: Document, d: Uuid) {
    document.id == d && document.jobId in jobs && jobs[document.jobId].documentId == d
  }

  /** Every job has its own document, every document its own job, and the two agree. */
  ghost predicate JobsLinked(documents: map<Uuid, Document>, jobs: map<Uuid, Job>) {
    && (forall j :: j in jobs ==> JobLinked(documents, jobs[j], j))
    && (forall d :: d in documents ==> DocumentLinked(jobs, documents[d], d))
  }

  predicate JobWellFormed(job: Job, payload: string) {
    && StatusFields(job) && job.pipelineVersion == PIPELINE_VERSION
    && job.inputSha == Sha256(payload) && !Chunker.IsBlank(payload)
  }

  ghost predicate JobsWellFormed(jobs: map<Uuid, Job>, payloads: map<Uuid, string>) {
    payloads.Keys == jobs.Keys && forall j :: j in jobs ==> JobWellFormed(jobs[j], payloads[j])
  }

  function DedupKeyOfJob(job: Job): DedupKey {
    DedupKey(job.scope, job.inputSha, job.pipelineVersion)
  }

  /** Deduplication keys and jobs correspond one to one. */
  ghost predicate DedupExact(jobs: map<Uuid, Job>, dedup: map<DedupKey, Uuid>) {
    && (forall j :: j in jobs ==> DedupKeyOfJob(jobs[j]) in dedup && dedup[DedupKeyOfJob(jobs[j])] == j)
    && (forall k :: k in dedup ==> dedup[k] in jobs && DedupKeyOfJob(jobs[dedup[k]]) == k)
  }

  /** Recorded idempotency keys are exactly the keys that created a job. */
  ghost predicate IdempotencyExact(jobs: map<Uuid, Job>, idempotency: map<IdempotencyKey, Uuid>) {
    && (forall j :: j in jobs && jobs[j].idempotencyKey.Some? ==>
          var k := IdempotencyKeyOf(jobs[j].scope, jobs[j].idempotencyKey.value);
          k in idempotency && idempotency[k] == j)
    && (forall k :: k in idempotency ==>
          && idempotency[k] in jobs && jobs[idempotency[k]].idempotencyKey.Some?
          && IdempotencyKeyOf(jobs[idempotency[k]].scope, jobs[idempotency[k]].idempotencyKey.value) == k)
  }

  ghost predicate IntakeValid(t: Intake) {
    && JobsLinked(t.documents, t.jobs)
    && JobsWellFormed(t.jobs, t.payloads)
    && DedupExact(t.jobs, t.dedup)
    && IdempotencyExact(t.jobs, t.idempotency)
  }
}
