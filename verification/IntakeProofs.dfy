/** Admission is exactly-once, and jobs and documents never disagree. */
module IntakeProofs {
  import opened Basics
  import opened StoreTypes
  import opened IntakeSpec
  import Chunker
  import Text

  // ------------------------------------------------------ every step keeps the tables consistent

  /** A job whose identity is unchanged may move to any status whose fields fit. */
  predicate SameIdentity(job: Job, job': Job) {
    && job'.id == job.id && job'.documentId == job.documentId && job'.scope == job.scope
    && job'.pipelineVersion == job.pipelineVersion && job'.inputSha == job.inputSha
    && job'.idempotencyKey == job.idempotencyKey
  }

  predicate SameDocument(d: Document, d': Document) {
    d' == d.(status := d'.status, chunkCount := d'.chunkCount)
  }

  ghost predicate JobsRelabel(jobs: map<Uuid, Job>, jobs': map<Uuid, Job>) {
    && jobs'.Keys == jobs.Keys
    && forall j :: j in jobs ==> SameIdentity(jobs[j], jobs'[j]) && StatusFields(jobs'[j])
  }

  /** `d'` is `d` with the status of its job, and unchanged if it had succeeded. */
  predicate Follows(d: Document, d': Document, jobs': map<Uuid, Job>) {
    && SameDocument(d, d') && d.jobId in jobs' && d'.status == jobs'[d.jobId].status
    && (d.status == Succeeded ==> d' == d)
  }

  ghost predicate DocumentsFollow(documents: map<Uuid, Document>, documents': map<Uuid, Document>,
                                  jobs': map<Uuid, Job>) {
    documents'.Keys == documents.Keys && forall d :: d in documents ==> Follows(documents[d], documents'[d], jobs')
  }

  /** Only statuses and schedules differ, and each document follows its job. */
  ghost predicate Relabels(t: Intake, t': Intake) {
    && t'.payloads == t.payloads && t'.dedup == t.dedup && t'.idempotency == t.idempotency
    && JobsRelabel(t.jobs, t'.jobs) && DocumentsFollow(t.documents, t'.documents, t'.jobs)
  }

  lemma RelabelKeepsValid(t: Intake, t': Intake)
    requires IntakeValid(t) && Relabels(t, t')
    ensures IntakeValid(t') && Extends(t, t')
  {
    hide JobsLinked, JobsWellFormed, DedupExact, IdempotencyExact, StatusFields, SameDocument, SameIdentity;
    RelabelKeepsLinks(t, t');
    RelabelKeepsWellFormed(t, t');
    RelabelKeepsIndexes(t.jobs, t'.jobs, t.dedup, t.idempotency);
    RelabelExtends(t, t');
  }

  lemma RelabelKeepsWellFormed(t: Intake, t': Intake)
    requires JobsWellFormed(t.jobs, t.payloads) && Relabels(t, t')
    ensures JobsWellFormed(t'.jobs, t'.payloads)
  {
    hide StatusFields, Chunker.IsBlank;
    forall j | j in t'.jobs
      ensures JobWellFormed(t'.jobs[j], t'.payloads[j])
    {
      assert JobWellFormed(t.jobs[j], t.payloads[j]);
    }
  }

  lemma RelabelExtends(t: Intake, t': Intake)
    requires Relabels(t, t')
    ensures Extends(t, t')
  {
    hide StatusFields;
    assert forall d :: d in t.documents ==> Follows(t.documents[d], t'.documents[d], t'.jobs);
  }

  lemma RelabelKeepsLinks(t: Intake, t': Intake)
    requires JobsLinked(t.documents, t.jobs) && Relabels(t, t')
    ensures JobsLinked(t'.documents, t'.jobs)
  {
    hide StatusFields;
    forall j | j in t'.jobs
      ensures JobLinked(t'.documents, t'.jobs[j], j)
    {
      assert JobLinked(t.documents, t.jobs[j], j);
      assert Follows(t.documents[t.jobs[j].documentId], t'.documents[t.jobs[j].documentId], t'.jobs);
    }
    forall d | d in t'.documents
      ensures DocumentLinked(t'.jobs, t'.documents[d], d)
    {
      assert DocumentLinked(t.jobs, t.documents[d], d) && Follows(t.documents[d], t'.documents[d], t'.jobs);
    }
  }

  lemma RelabelKeepsIndexes(jobs: map<Uuid, Job>, jobs': map<Uuid, Job>, dedup: map<DedupKey, Uuid>,
                            idempotency: map<IdempotencyKey, Uuid>)
    requires jobs'.Keys == jobs.Keys && forall j :: j in jobs ==> SameIdentity(jobs[j], jobs'[j])
    requires DedupExact(jobs, dedup) && IdempotencyExact(jobs, idempotency)
    ensures DedupExact(jobs', dedup) && IdempotencyExact(jobs', idempotency)
  {
  }

  lemma AdmitKeepsValid(t: Intake, req: NewDocument, jobId: Uuid, documentId: Uuid, now: nat)
    requires IntakeValid(t) && jobId !in t.jobs && documentId !in t.documents
    requires ValidateDocument(req).None? && ExistingJob(t, req).None?
    ensures IntakeValid(Admit(t, req, jobId, documentId, now))
  {
    hide JobsLinked, JobsWellFormed, DedupExact, IdempotencyExact, ExistingJob;
    AdmitKeepsLinks(t.documents, t.jobs, req, jobId, documentId, now);
    AdmitKeepsWellFormed(t.jobs, t.payloads, req, jobId, documentId, now);
    AdmitKeepsIndexes(t, req, jobId, documentId, now);
  }

  lemma AdmitKeepsLinks(documents: map<Uuid, Document>, jobs: map<Uuid, Job>, req: NewDocument, jobId: Uuid,
                        documentId: Uuid, now: nat)
    requires JobsLinked(documents, jobs) && jobId !in jobs && documentId !in documents
    ensures JobsLinked(documents[documentId := NewDocumentRow(req, jobId, documentId)],
                       jobs[jobId := NewJob(req, jobId, documentId, now)])
  {
  }

  lemma AdmitKeepsWellFormed(jobs: map<Uuid, Job>, payloads: map<Uuid, string>, req: NewDocument, jobId: Uuid,
                             documentId: Uuid, now: nat)
    requires JobsWellFormed(jobs, payloads) && jobId !in jobs && ValidateDocument(req).None?
    ensures JobsWellFormed(jobs[jobId := NewJob(req, jobId, documentId, now)], payloads[jobId := req.content])
  {
    hide Chunker.IsBlank;
    assert JobWellFormed(NewJob(req, jobId, documentId, now), req.content);
  }

  lemma AdmitKeepsIndexes(t: Intake, req: NewDocument, jobId: Uuid, documentId: Uuid, now: nat)
    requires DedupExact(t.jobs, t.dedup) && IdempotencyExact(t.jobs, t.idempotency)
    requires jobId !in t.jobs && ExistingJob(t, req).None?
    ensures var t' := Admit(t, req, jobId, documentId, now);
      DedupExact(t'.jobs, t'.dedup) && IdempotencyExact(t'.jobs, t'.idempotency)
  {
    hide DedupExact, IdempotencyExact;
    AdmitKeepsDedup(t.jobs, t.dedup, NewJob(req, jobId, documentId, now));
    AdmitKeepsIdempotency(t.jobs, t.idempotency, NewJob(req, jobId, documentId, now));
  }

  lemma AdmitKeepsDedup(jobs: map<Uuid, Job>, dedup: map<DedupKey, Uuid>, job: Job)
    requires DedupExact(jobs, dedup) && job.id !in jobs && DedupKeyOfJob(job) !in dedup
    ensures DedupExact(jobs[job.id := job], dedup[DedupKeyOfJob(job) := job.id])
  {
  }

  lemma AdmitKeepsIdempotency(jobs: map<Uuid, Job>, idempotency: map<IdempotencyKey, Uuid>, job: Job)
    requires IdempotencyExact(jobs, idempotency) && job.id !in jobs
    requires job.idempotencyKey.Some? ==> IdempotencyKeyOf(job.scope, job.idempotencyKey.value) !in idempotency
    ensures IdempotencyExact(jobs[job.id := job],
                             if job.idempotencyKey.None? then idempotency
                             else idempotency[IdempotencyKeyOf(job.scope, job.idempotencyKey.value) := job.id])
  {
  }

  /** `enqueue_document` fails only on malformed requests: its "missing" errors are unreachable. */
  lemma EnqueueKeepsValid(t: Intake, req: NewDocument, jobId: Uuid, documentId: Uuid, now: nat)
    requires IntakeValid(t) && jobId !in t.jobs && documentId !in t.documents
    ensures var (t', r) := Enqueue(t, req, jobId, documentId, now);
      && IntakeValid(t') && Extends(t, t')
      && (r.Ok? <==> ValidateDocument(req).None?)
      && (r.Err? ==> t' == t)
      && (r.Ok? ==>
            && r.value.job.id in t'.jobs && t'.jobs[r.value.job.id] == r.value.job
            && r.value.job.documentId in t'.documents && t'.documents[r.value.job.documentId] == r.value.document
            && (r.value.deduplicated <==> t' == t)
            && (r.value.deduplicated <==> r.value.job.id in t.jobs))
  {
    hide ValidateDocument, JobWellFormed;
    assert forall j :: j in t.jobs ==> JobLinked(t.documents, t.jobs[j], j);
    if ValidateDocument(req).None? && ExistingJob(t, req).None? {
      AdmitKeepsValid(t, req, jobId, documentId, now);
      AdmitExtends(t, req, jobId, documentId, now);
      assert jobId in Enqueue(t, req, jobId, documentId, now).0.jobs;
    }
  }

  lemma AdmitExtends(t: Intake, req: NewDocument, jobId: Uuid, documentId: Uuid, now: nat)
    requires jobId !in t.jobs && jobId !in t.payloads && documentId !in t.documents && ExistingJob(t, req).None?
    ensures Extends(t, Admit(t, req, jobId, documentId, now))
  {
  }

  lemma SetJobKeepsValid(t: Intake, job': Job)
    requires IntakeValid(t) && job'.id in t.jobs && SameIdentity(t.jobs[job'.id], job') && StatusFields(job')
    requires t.jobs[job'.id].status != Succeeded
    ensures job'.documentId in t.documents
    ensures IntakeValid(SetJob(t, job')) && Extends(t, SetJob(t, job'))
  {
    hide StatusFields, Chunker.IsBlank, DedupExact, IdempotencyExact;
    assert JobLinked(t.documents, t.jobs[job'.id], job'.id);
    assert JobWellFormed(t.jobs[job'.id], t.payloads[job'.id]);
    SetJobRelabels(t.documents, t.jobs, t.payloads, job');
    RelabelKeepsValid(t, SetJob(t, job'));
  }

  lemma SetJobRelabels(documents: map<Uuid, Document>, jobs: map<Uuid, Job>, payloads: map<Uuid, string>, job': Job)
    requires JobsLinked(documents, jobs) && JobsWellFormed(jobs, payloads)
    requires job'.id in jobs && SameIdentity(jobs[job'.id], job') && StatusFields(job')
    requires jobs[job'.id].status != Succeeded && job'.documentId in documents
    ensures JobsRelabel(jobs, jobs[job'.id := job'])
    ensures DocumentsFollow(documents, documents[job'.documentId := documents[job'.documentId].(status := job'.status)],
                            jobs[job'.id := job'])
  {
    hide StatusFields, Chunker.IsBlank;
    forall j | j in jobs
      ensures StatusFields(jobs[j])
    {
      assert JobWellFormed(jobs[j], payloads[j]);
    }
    forall d | d in documents
      ensures Follows(documents[d], if d == job'.documentId then documents[d].(status := job'.status) else documents[d],
                      jobs[job'.id := job'])
    {
      assert DocumentLinked(jobs, documents[d], d);
      assert JobLinked(documents, jobs[documents[d].jobId], documents[d].jobId);
    }
  }

  /** The job is queued, or waits for a retry whose time has come. */
  predicate CanStart(job: Job, now: nat) {
    || job.status == Queued
    || (job.status == RetryWait && match job.nextAttemptAt case None => false case Some(at) => at <= now)
  }

  lemma ClaimStartsLeast(t: Intake, now: nat)
    requires JobsLinked(t.documents, t.jobs) && t.payloads.Keys == t.jobs.Keys
    ensures var r := Claim(t, now).1;
      && r.Ok? && (r.value.None? <==> forall j :: j in t.jobs ==> !CanStart(t.jobs[j], now))
      && (r.value.Some? ==>
            var j := r.value.value.job.id;
            && j in t.jobs && CanStart(t.jobs[j], now)
            && (forall k :: k in t.jobs && CanStart(t.jobs[k], now) ==> j <= k)
            && r.value.value.job == t.jobs[j].(status := Processing, attempts := t.jobs[j].attempts + 1,
                                               nextAttemptAt := None, leaseExpiresAt := Some(now + 30_000),
                                               updatedAt := now))
  {
    assert forall j :: j in EligibleJobs(t, now) <==> j in t.jobs && CanStart(t.jobs[j], now);
    if EligibleJobs(t, now) != {} {
      var j := Least(EligibleJobs(t, now));
      assert JobLinked(t.documents, t.jobs[j], j);
    }
  }

  /** A claim leases the startable job with the least id, and never fails. */
  lemma ClaimKeepsValid(t: Intake, now: nat)
    requires IntakeValid(t)
    ensures var (t', r) := Claim(t, now);
      && IntakeValid(t') && Extends(t, t') && r.Ok?
      && (r.value.None? ==> t' == t && EligibleJobs(t, now) == {})
      && (r.value.Some? ==>
            var j := r.value.value.job.id;
            && IsLeast(j, EligibleJobs(t, now)) && t.jobs[j].documentId in t.documents
            && t' == SetJob(t, Leased(t.jobs[j], now))
            && r.value.value == ClaimedJob(t'.jobs[j], t.payloads[j]))
    ensures var r := Claim(t, now).1;
      && (r.value.None? <==> forall j :: j in t.jobs ==> !CanStart(t.jobs[j], now))
      && (r.value.Some? ==>
            var j := r.value.value.job.id;
            && j in t.jobs && CanStart(t.jobs[j], now)
            && (forall k :: k in t.jobs && CanStart(t.jobs[k], now) ==> j <= k)
            && r.value.value.job == t.jobs[j].(status := Processing, attempts := t.jobs[j].attempts + 1,
                                               nextAttemptAt := None, leaseExpiresAt := Some(now + 30_000),
                                               updatedAt := now))
  {
    ClaimStartsLeast(t, now);
    hide Chunker.IsBlank, DedupExact, IdempotencyExact, IsEligible, SameIdentity, StatusFields, Leased, Extends;
    ExtendsReflexive(t);
    if EligibleJobs(t, now) != {} {
      var j := Least(EligibleJobs(t, now));
      LeasedJobFits(t.jobs[j], now);
      assert JobLinked(t.documents, t.jobs[j], j) && JobWellFormed(t.jobs[j], t.payloads[j]);
      assert t.jobs[j].status != Succeeded by { EligibleIsOpen(t.jobs[j], now); }
      SetJobKeepsValid(t, Leased(t.jobs[j], now));
    }
  }

  lemma EligibleIsOpen(job: Job, now: nat)
    requires IsEligible(job, now)
    ensures job.status == Queued || job.status == RetryWait
  {
  }

  lemma FailedJobFits(job: Job, error: string, now: nat)
    requires StatusFields(job) && job.status == Processing
    ensures SameIdentity(job, Failed(job, error, now)) && StatusFields(Failed(job, error, now))
  {
    hide BackoffMs;
  }

  lemma LeasedJobFits(job: Job, now: nat)
    ensures SameIdentity(job, Leased(job, now)) && StatusFields(Leased(job, now))
  {
  }

  lemma ExtendsReflexive(t: Intake)
    ensures Extends(t, t)
  {
  }

  lemma FailKeepsValid(t: Intake, jobId: Uuid, error: string, now: nat)
    requires IntakeValid(t)
    ensures var (t', r) := Fail(t, jobId, error, now);
      && IntakeValid(t') && Extends(t, t') && (r.Err? ==> t' == t)
      && (r.Ok? <==> !Chunker.IsBlank(error) && jobId in t.jobs && t.jobs[jobId].status == Processing)
      && (r.Ok? ==> t.jobs[jobId].documentId in t.documents && t' == SetJob(t, Failed(t.jobs[jobId], error, now)))
  {
    hide Chunker.IsBlank, DedupExact, IdempotencyExact, SameIdentity, StatusFields, Failed, Extends, SetJob;
    ExtendsReflexive(t);
    if jobId in t.jobs && t.jobs[jobId].status == Processing {
      assert JobLinked(t.documents, t.jobs[jobId], jobId) && JobWellFormed(t.jobs[jobId], t.payloads[jobId]);
      FailedJobFits(t.jobs[jobId], error, now);
      SetJobKeepsValid(t, Failed(t.jobs[jobId], error, now));
    }
  }

  lemma OwnerRetryKeepsValid(t: Intake, jobId: Uuid, scope: Scope, now: nat)
    requires IntakeValid(t)
    ensures var (t', r) := OwnerRetry(t, jobId, scope, now);
      && IntakeValid(t') && Extends(t, t')
      && (r.Err? || r.value.None? ==> t' == t)
      && (r.Ok? && r.value.Some? <==>
            jobId in t.jobs && t.jobs[jobId].scope == scope && t.jobs[jobId].status == DeadLetter)
      && (r.Ok? && r.value.Some? ==>
            t.jobs[jobId].documentId in t.documents
            && t' == SetJob(t, Requeued(t.jobs[jobId], now).(attempts := 0, lastError := None)))
  {
    hide Chunker.IsBlank, DedupExact, IdempotencyExact;
    if jobId in t.jobs && t.jobs[jobId].scope == scope && t.jobs[jobId].status == DeadLetter {
      assert JobLinked(t.documents, t.jobs[jobId], jobId) && JobWellFormed(t.jobs[jobId], t.payloads[jobId]);
      SetJobKeepsValid(t, Requeued(t.jobs[jobId], now).(attempts := 0, lastError := None));
    }
  }

  lemma RecoverKeepsValid(t: Intake, now: nat)
    requires IntakeValid(t)
    ensures IntakeValid(Recover(t, now)) && Extends(t, Recover(t, now))
    ensures forall j :: j in Recover(t, now).jobs ==> Recover(t, now).jobs[j].status != Processing
  {
    hide Chunker.IsBlank, DedupExact, IdempotencyExact;
    RecoverRelabels(t, now);
    RelabelKeepsValid(t, Recover(t, now));
  }

  lemma RecoverRelabels(t: Intake, now: nat)
    requires JobsLinked(t.documents, t.jobs) && JobsWellFormed(t.jobs, t.payloads)
    ensures Relabels(t, Recover(t, now))
  {
    hide JobLinked, DocumentLinked, JobWellFormed, StatusFields, SameIdentity, Follows, RecoverJob, RecoverDocument;
    forall j | j in t.jobs
      ensures SameIdentity(t.jobs[j], RecoverJob(t.jobs[j], now)) && StatusFields(RecoverJob(t.jobs[j], now))
    {
      RecoverJobFits(t.jobs[j], t.payloads[j], now);
    }
    forall d | d in t.documents
      ensures Follows(t.documents[d], RecoverDocument(t.documents[d], t.jobs), Recover(t, now).jobs)
    {
      RecoverDocumentFollows(t, d, now);
    }
  }

  lemma RecoverJobFits(job: Job, payload: string, now: nat)
    requires JobWellFormed(job, payload)
    ensures SameIdentity(job, RecoverJob(job, now)) && StatusFields(RecoverJob(job, now))
  {
    hide Chunker.IsBlank;
  }

  lemma RecoverDocumentFollows(t: Intake, d: Uuid, now: nat)
    requires JobsLinked(t.documents, t.jobs) && d in t.documents
    ensures Follows(t.documents[d], RecoverDocument(t.documents[d], t.jobs), Recover(t, now).jobs)
  {
    assert DocumentLinked(t.jobs, t.documents[d], d);
    assert JobLinked(t.documents, t.jobs[t.documents[d].jobId], t.documents[d].jobId);
  }

  lemma SucceedKeepsValid(t: Intake, jobId: Uuid, chunkCount: nat, now: nat)
    requires IntakeValid(t) && jobId in t.jobs && t.jobs[jobId].status == Processing
    ensures t.jobs[jobId].documentId in t.documents
    ensures IntakeValid(Succeed(t, jobId, chunkCount, now)) && Extends(t, Succeed(t, jobId, chunkCount, now))
  {
    hide Chunker.IsBlank, DedupExact, IdempotencyExact, SameIdentity, StatusFields, Follows;
    assert JobLinked(t.documents, t.jobs[jobId], jobId) && JobWellFormed(t.jobs[jobId], t.payloads[jobId]);
    SucceededJobFits(t.jobs[jobId], t.payloads[jobId], now);
    SetJobRelabels(t.documents, t.jobs, t.payloads, SucceededJob(t.jobs[jobId], now));
    CountKeepsFollows(t, SetJob(t, SucceededJob(t.jobs[jobId], now)), t.jobs[jobId].documentId, chunkCount);
    RelabelKeepsValid(t, Succeed(t, jobId, chunkCount, now));
  }

  lemma SucceededJobFits(job: Job, payload: string, now: nat)
    requires JobWellFormed(job, payload) && job.status == Processing
    ensures SameIdentity(job, SucceededJob(job, now)) && StatusFields(SucceededJob(job, now))
  {
    hide Chunker.IsBlank;
  }

  lemma CountKeepsFollows(t: Intake, t': Intake, d: Uuid, chunkCount: nat)
    requires DocumentsFollow(t.documents, t'.documents, t'.jobs) && d in t.documents
    requires t.documents[d].status != Succeeded
    ensures DocumentsFollow(t.documents, t'.documents[d := t'.documents[d].(chunkCount := chunkCount)], t'.jobs)
  {
    assert forall e :: e in t.documents ==> Follows(t.documents[e], t'.documents[e], t'.jobs);
  }

  // ------------------------------------------------------ write-once admission

  ghost predicate Keeps<K, V>(m: map<K, V>, m': map<K, V>) {
    forall k :: k in m ==> k in m' && m'[k] == m[k]
  }

  ghost predicate KeepsJobs(jobs: map<Uuid, Job>, jobs': map<Uuid, Job>) {
    forall j :: j in jobs ==> j in jobs' && SameIdentity(jobs[j], jobs'[j])
  }

  ghost predicate KeepsDocuments(documents: map<Uuid, Document>, documents': map<Uuid, Document>) {
    forall d :: d in documents ==>
      && d in documents' && SameDocument(documents[d], documents'[d])
      && (documents[d].status == Succeeded ==> documents'[d] == documents[d])
  }

  /** Nothing admitted is ever forgotten or re-pointed. */
  ghost predicate Extends(t: Intake, t': Intake) {
    && Keeps(t.dedup, t'.dedup) && Keeps(t.idempotency, t'.idempotency) && Keeps(t.payloads, t'.payloads)
    && KeepsJobs(t.jobs, t'.jobs) && KeepsDocuments(t.documents, t'.documents)
  }

  lemma KeepsTransitive<K, V>(m: map<K, V>, m': map<K, V>, m'': map<K, V>)
    requires Keeps(m, m') && Keeps(m', m'')
    ensures Keeps(m, m'')
  {
  }

  lemma ExtendsTransitive(t: Intake, t': Intake, t'': Intake)
    requires Extends(t, t') && Extends(t', t'')
    ensures Extends(t, t'')
  {
    hide Keeps, KeepsJobs, KeepsDocuments;
    KeepsTransitive(t.dedup, t'.dedup, t''.dedup);
    KeepsTransitive(t.idempotency, t'.idempotency, t''.idempotency);
    KeepsTransitive(t.payloads, t'.payloads, t''.payloads);
    assert KeepsJobs(t.jobs, t''.jobs) by { JobsTransitive(t.jobs, t'.jobs, t''.jobs); }
    assert KeepsDocuments(t.documents, t''.documents) by {
      DocumentsTransitive(t.documents, t'.documents, t''.documents);
    }
  }

  lemma JobsTransitive(jobs: map<Uuid, Job>, jobs': map<Uuid, Job>, jobs'': map<Uuid, Job>)
    requires KeepsJobs(jobs, jobs') && KeepsJobs(jobs', jobs'')
    ensures KeepsJobs(jobs, jobs'')
  {
  }

  lemma DocumentsTransitive(documents: map<Uuid, Document>, documents': map<Uuid, Document>,
                            documents'': map<Uuid, Document>)
    requires KeepsDocuments(documents, documents') && KeepsDocuments(documents', documents'')
    ensures KeepsDocuments(documents, documents'')
  {
  }

  /**
   * Exactly once: when a request has created job `jobId`, then in every later state a request with
   * its idempotency key, or with its content and no recorded key, gets that job back and changes nothing.
   */
  lemma ReplayReturnsSameJob(t: Intake, req: NewDocument, jobId: Uuid, documentId: Uuid, now: nat,
                             later: Intake, again: NewDocument, jobId': Uuid, documentId': Uuid, now': nat)
    requires IntakeValid(t) && ValidateDocument(req).None? && ExistingJob(t, req).None?
    requires IntakeValid(later) && Extends(Admit(t, req, jobId, documentId, now), later)
    requires ValidateDocument(again).None? && again.scope == req.scope
    requires (again.idempotencyKey.Some? && again.idempotencyKey == req.idempotencyKey)
             || (again.content == req.content
                 && (again.idempotencyKey.None?
                     || IdempotencyKeyOf(again.scope, again.idempotencyKey.value) !in later.idempotency))
    ensures var (later', r) := Enqueue(later, again, jobId', documentId', now');
      && later' == later && r.Ok? && r.value.deduplicated
      && r.value.job.id == jobId && r.value.document.id == documentId
  {
    hide ValidateDocument, IntakeValid, Extends;
    var admitted := Admit(t, req, jobId, documentId, now);
    AdmittedForGood(t, req, jobId, documentId, now, later);
    FoundJobIsNamed(later, again);
  }

  /** The records of an admitted request in every later state. */
  lemma AdmittedForGood(t: Intake, req: NewDocument, jobId: Uuid, documentId: Uuid, now: nat, later: Intake)
    requires Extends(Admit(t, req, jobId, documentId, now), later) && IntakeValid(later)
    ensures DedupKeyOf(req) in later.dedup && later.dedup[DedupKeyOf(req)] == jobId
    ensures req.idempotencyKey.Some? ==>
              var k := IdempotencyKeyOf(req.scope, req.idempotencyKey.value);
              k in later.idempotency && later.idempotency[k] == jobId
    ensures jobId in later.jobs && later.jobs[jobId].documentId == documentId
    ensures documentId in later.documents && later.documents[documentId].id == documentId
  {
    hide JobsWellFormed, DedupExact, IdempotencyExact;
    var admitted := Admit(t, req, jobId, documentId, now);
    assert jobId in admitted.jobs && DedupKeyOf(req) in admitted.dedup;
    assert JobLinked(later.documents, later.jobs[jobId], jobId);
    assert DocumentLinked(later.jobs, later.documents[documentId], documentId);
  }

  /** The key of a request is on record afterwards iff it was before or the request created its job. */
  lemma KeyRecordedIffCreated(t: Intake, req: NewDocument, jobId: Uuid, documentId: Uuid, now: nat)
    requires IntakeValid(t) && jobId !in t.jobs && documentId !in t.documents
    requires ValidateDocument(req).None? && req.idempotencyKey.Some?
    ensures var k := IdempotencyKeyOf(req.scope, req.idempotencyKey.value);
      var (t', r) := Enqueue(t, req, jobId, documentId, now);
      && r.Ok?
      && (k in t'.idempotency <==> k in t.idempotency || DedupKeyOf(req) !in t.dedup)
      && (k in t'.idempotency ==> t'.idempotency[k] == r.value.job.id)
  {
    hide ValidateDocument, IntakeValid;
    EnqueueKeepsValid(t, req, jobId, documentId, now);
    FoundJobIsNamed(t, req);
  }

  /** A job that an index finds is stored under its own id. */
  lemma FoundJobIsNamed(t: Intake, req: NewDocument)
    requires IntakeValid(t)
    ensures var found := ExistingJob(t, req);
      found.Some? ==> found.value in t.jobs && t.jobs[found.value].id == found.value
                      && t.jobs[found.value].documentId in t.documents
  {
    hide JobsWellFormed;
    assert forall j :: j in t.jobs ==> JobLinked(t.documents, t.jobs[j], j);
  }

  /** The content of a stored job's payload is what its deduplication key says. */
  lemma DedupFindsContent(t: Intake, req: NewDocument)
    requires IntakeValid(t) && DedupKeyOf(req) in t.dedup
    ensures var j := t.dedup[DedupKeyOf(req)];
      j in t.jobs && t.jobs[j].inputSha == Sha256(req.content) && t.jobs[j].scope == req.scope
  {
    hide JobsLinked, JobsWellFormed, IdempotencyExact;
  }

  /** The job of a key that was recorded only later is none of the earlier jobs. */
  lemma LateKeyLeadsElsewhere(t: Intake, later: Intake, k: IdempotencyKey, j: Uuid)
    requires IdempotencyExact(t.jobs, t.idempotency) && IdempotencyExact(later.jobs, later.idempotency)
    requires KeepsJobs(t.jobs, later.jobs) && j in t.jobs && k !in t.idempotency && k in later.idempotency
    ensures later.idempotency[k] != j
  {
    assert SameIdentity(t.jobs[j], later.jobs[j]);
  }

  /**
   * What a repeated idempotency key is good for. Of two well-formed requests with one scope and key, with
   * anything admitted in between, the second gets the job of the first iff the first found its key on
   * record or created its job, or the key is still unrecorded and both carry the same content.
   */
  lemma RepeatedKeyReturnsFirstJob(t: Intake, req: NewDocument, jobId: Uuid, documentId: Uuid, now: nat,
                                   later: Intake, again: NewDocument, jobId': Uuid, documentId': Uuid, now': nat)
    requires IntakeValid(t) && jobId !in t.jobs && documentId !in t.documents
    requires ValidateDocument(req).None? && ValidateDocument(again).None?
    requires again.scope == req.scope && req.idempotencyKey.Some? && again.idempotencyKey == req.idempotencyKey
    requires IntakeValid(later) && Extends(Enqueue(t, req, jobId, documentId, now).0, later)
    requires jobId' !in later.jobs
    ensures var k := IdempotencyKeyOf(req.scope, req.idempotencyKey.value);
      var first := Enqueue(t, req, jobId, documentId, now).1;
      var second := Enqueue(later, again, jobId', documentId', now').1;
      && first.Ok? && second.Ok?
      && (second.value.job.id == first.value.job.id <==>
            || k in t.idempotency || DedupKeyOf(req) !in t.dedup
            || (k !in later.idempotency && again.content == req.content))
  {
    hide ValidateDocument, IntakeValid, Enqueue, Extends;
    var after := Enqueue(t, req, jobId, documentId, now).0;
    var k := IdempotencyKeyOf(req.scope, req.idempotencyKey.value);
    KeyRecordedIffCreated(t, req, jobId, documentId, now);
    EnqueueAnswers(t, req, jobId, documentId, now);
    EnqueueAnswers(later, again, jobId', documentId', now');
    if k in after.idempotency {
      RecordStays(after, later, k);
    } else {
      ReplayChangesNothing(t, req, jobId, documentId, now);
      UnrecordedKeyAnswers(t, req, later, again, jobId');
    }
  }

  lemma RecordStays(t: Intake, later: Intake, k: IdempotencyKey)
    requires Extends(t, later) && k in t.idempotency
    ensures k in later.idempotency && later.idempotency[k] == t.idempotency[k]
  {
    hide KeepsJobs, KeepsDocuments;
  }

  /** After a request that left its key unrecorded: what a later request with that key is answered with. */
  lemma UnrecordedKeyAnswers(t: Intake, req: NewDocument, later: Intake, again: NewDocument, jobId': Uuid)
    requires IntakeValid(t) && IntakeValid(later) && Extends(t, later) && jobId' !in later.jobs
    requires again.scope == req.scope && req.idempotencyKey.Some? && again.idempotencyKey == req.idempotencyKey
    requires IdempotencyKeyOf(req.scope, req.idempotencyKey.value) !in t.idempotency && DedupKeyOf(req) in t.dedup
    ensures var k := IdempotencyKeyOf(req.scope, req.idempotencyKey.value);
      var found := ExistingJob(later, again);
      (if found.Some? then found.value else jobId') == t.dedup[DedupKeyOf(req)] <==>
        k !in later.idempotency && again.content == req.content
  {
    hide JobsLinked, JobsWellFormed, DedupExact, IdempotencyExact, KeepsDocuments;
    var k := IdempotencyKeyOf(req.scope, req.idempotencyKey.value);
    var j := t.dedup[DedupKeyOf(req)];
    DedupFindsContent(t, req);
    assert SameIdentity(t.jobs[j], later.jobs[j]);
    if k in later.idempotency {
      LateKeyLeadsElsewhere(t, later, k, j);
    } else if DedupKeyOf(again) in later.dedup {
      DedupFindsContent(later, again);
    }
  }

  /** The job of the receipt is the one an index found, or the new one. */
  lemma EnqueueAnswers(t: Intake, req: NewDocument, jobId: Uuid, documentId: Uuid, now: nat)
    requires IntakeValid(t) && ValidateDocument(req).None?
    ensures var r := Enqueue(t, req, jobId, documentId, now).1;
      r.Ok? && r.value.job.id == if ExistingJob(t, req).Some? then ExistingJob(t, req).value else jobId
  {
    hide ValidateDocument, IntakeValid, ExistingJob;
    FoundJobIsNamed(t, req);
  }

  lemma ReplayChangesNothing(t: Intake, req: NewDocument, jobId: Uuid, documentId: Uuid, now: nat)
    requires ExistingJob(t, req).Some?
    ensures Enqueue(t, req, jobId, documentId, now).0 == t
  {
    hide ValidateDocument, ExistingJob;
  }

  /**
   * The failing case: content "a" is stored without a key, sent again under key "k", and then content
   * "b" is sent under the same key. The third request gets a second job, not the one its key was
   * answered with; and the second request, sent once more, is now answered with the job of content "b".
   */
  lemma SameKeySecondJob()
    ensures var scope := Scope("o", "w");
      var plain := NewDocument(scope, "n", None, "a", None);
      var keyed := NewDocument(scope, "n", None, "a", Some("k"));
      var other := NewDocument(scope, "n", None, "b", Some("k"));
      var t1 := Enqueue(Intake(map[], map[], map[], map[], map[]), plain, 1, 2, 0).0;
      var (t2, second) := Enqueue(t1, keyed, 3, 4, 0);
      var (t3, third) := Enqueue(t2, other, 5, 6, 0);
      && second.Ok? && second.value.deduplicated && second.value.job.id == 1
      && third.Ok? && !third.value.deduplicated && third.value.job.id == 5 && t3.jobs.Keys == {1, 5}
      && var fourth := Enqueue(t3, keyed, 7, 8, 0).1;
         fourth.Ok? && fourth.value.job.id == 5 && fourth.value.job.inputSha == Sha256("b")
  {
    hide Text.EncodeAll;
    var scope := Scope("o", "w");
    assert forall text :: text in {"o", "w", "n", "a", "b", "k"} ==> !Chunker.IsBlank(text) by {
      forall text | text in {"o", "w", "n", "a", "b", "k"}
        ensures !Chunker.IsBlank(text)
      {
        assert text[0] in text && !Chunker.IsWhitespace(text[0]);
      }
    }
    assert Text.Utf8Len("k") == 1 by {
      assert Text.IsAscii("k");
      Text.LengthInBytes("k");
    }
    assert Sha256("a") != Sha256("b");
    assert ValidateDocument(NewDocument(scope, "n", None, "a", None)).None?;
    assert ValidateDocument(NewDocument(scope, "n", None, "a", Some("k"))).None?;
    assert ValidateDocument(NewDocument(scope, "n", None, "b", Some("k"))).None?;
  }

  function DocumentsIn(t: Intake, scope: Scope): set<Uuid> {
    set d | d in t.documents && t.documents[d].scope == scope
  }

  function JobsIn(t: Intake, scope: Scope): set<Uuid> {
    set j | j in t.jobs && t.jobs[j].scope == scope
  }

  function DedupKeysIn(t: Intake, scope: Scope): set<DedupKey> {
    set k | k in t.dedup && k.scope == scope
  }

  function JobOfDocument(t: Intake, scope: Scope): map<Uuid, Uuid> {
    map d | d in DocumentsIn(t, scope) :: t.documents[d].jobId
  }

  function DocumentOfJob(t: Intake, scope: Scope): map<Uuid, Uuid> {
    map j | j in JobsIn(t, scope) :: t.jobs[j].documentId
  }

  function JobOfKey(t: Intake, scope: Scope): map<DedupKey, Uuid> {
    map k | k in DedupKeysIn(t, scope) :: t.dedup[k]
  }

  function KeyOfJob(t: Intake, scope: Scope): map<Uuid, DedupKey> {
    map j | j in JobsIn(t, scope) :: DedupKeyOfJob(t.jobs[j])
  }

  ghost predicate Inverse<K, V>(f: map<K, V>, g: map<V, K>) {
    && (forall k :: k in f ==> f[k] in g && g[f[k]] == k)
    && (forall v :: v in g ==> g[v] in f && f[g[v]] == v)
  }

  /** In one workspace, documents, jobs and deduplication entries are in bijection. */
  lemma WorkspaceBijection(t: Intake, scope: Scope)
    requires IntakeValid(t)
    ensures Inverse(JobOfDocument(t, scope), DocumentOfJob(t, scope))
    ensures Inverse(JobOfKey(t, scope), KeyOfJob(t, scope))
    ensures |DocumentsIn(t, scope)| == |JobsIn(t, scope)| == |DedupKeysIn(t, scope)|
  {
    hide JobsWellFormed, IdempotencyExact, DedupExact, JobOfKey, KeyOfJob, Inverse;
    JobsMatchDocuments(t, scope);
    KeysMatchJobs(t, scope);
    InverseCounts(JobOfDocument(t, scope), DocumentOfJob(t, scope));
    assert JobOfDocument(t, scope).Keys == DocumentsIn(t, scope) && DocumentOfJob(t, scope).Keys == JobsIn(t, scope);
  }

  lemma JobsMatchDocuments(t: Intake, scope: Scope)
    requires JobsLinked(t.documents, t.jobs)
    ensures Inverse(JobOfDocument(t, scope), DocumentOfJob(t, scope))
  {
    forall d | d in DocumentsIn(t, scope)
      ensures t.documents[d].jobId in JobsIn(t, scope) && t.jobs[t.documents[d].jobId].documentId == d
    {
      assert DocumentLinked(t.jobs, t.documents[d], d);
      assert JobLinked(t.documents, t.jobs[t.documents[d].jobId], t.documents[d].jobId);
    }
    forall j | j in JobsIn(t, scope)
      ensures t.jobs[j].documentId in DocumentsIn(t, scope) && t.documents[t.jobs[j].documentId].jobId == j
    {
      assert JobLinked(t.documents, t.jobs[j], j);
    }
  }

  lemma KeysMatchJobs(t: Intake, scope: Scope)
    requires DedupExact(t.jobs, t.dedup)
    ensures Inverse(JobOfKey(t, scope), KeyOfJob(t, scope))
    ensures |DedupKeysIn(t, scope)| == |JobsIn(t, scope)|
  {
    InverseCounts(JobOfKey(t, scope), KeyOfJob(t, scope));
    assert JobOfKey(t, scope).Keys == DedupKeysIn(t, scope) && KeyOfJob(t, scope).Keys == JobsIn(t, scope);
  }

  lemma {:induction false} InverseCounts<K, V>(f: map<K, V>, g: map<V, K>)
    requires Inverse(f, g)
    ensures |f.Keys| == |g.Keys|
    decreases |g|
  {
    if g == map[] {
      assert forall k :: k in f ==> f[k] in g;
      assert f.Keys == {};
    } else {
      var v :| v in g;
      SmallerWithout(g, v);
      assert (f - {g[v]}).Keys == f.Keys - {g[v]} && (g - {v}).Keys == g.Keys - {v};
      InverseCounts(f - {g[v]}, g - {v});
    }
  }
}
