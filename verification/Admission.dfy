/** What admission decides and writes, on the fields of requests, jobs and documents. */
module Admission {
  import opened Basics
  import opened StoreTypes
  import opened IntakeSpec
  import opened IntakeProofs
  import Text
  import Chunker

  /** The code points with the Unicode White_Space property. */
  const WHITE_SPACE := {0x09, 0x0A, 0x0B, 0x0C, 0x0D, 0x20, 0x85, 0xA0, 0x1680, 0x2000, 0x2001, 0x2002, 0x2003, 0x2004,
                        0x2005, 0x2006, 0x2007, 0x2008, 0x2009, 0x200A, 0x2028, 0x2029, 0x202F, 0x205F, 0x3000}

  /** Some character is not white space. */
  ghost predicate HasText(s: string) {
    exists i :: 0 <= i < |s| && !(s[i] as int in WHITE_SPACE)
  }

  lemma WhitespaceIs(c: char)
    ensures Chunker.IsWhitespace(c) <==> c as int in WHITE_SPACE
  {
  }

  lemma BlankIff(s: string)
    ensures Chunker.IsBlank(s) <==> !HasText(s)
  {
    hide Chunker.IsWhitespace;
    forall i | 0 <= i < |s|
      ensures Chunker.IsWhitespace(s[i]) <==> s[i] as int in WHITE_SPACE
    {
      WhitespaceIs(s[i]);
    }
    assert forall i :: 0 <= i < |s| ==> s[i] in s;
  }

  lemma InvalidIsAnswer(t: Intake, req: NewDocument, jobId: Uuid, documentId: Uuid, now: nat)
    ensures ValidateDocument(req).Some? ==>
              Enqueue(t, req, jobId, documentId, now) == (t, Err(ValidateDocument(req).value))
  {
    hide ValidateDocument;
  }

  /** A request is refused exactly for one of five faults, and the first fault in this order is the answer. */
  lemma RefusedExactly(t: Intake, req: NewDocument, jobId: Uuid, documentId: Uuid, now: nat)
    requires IntakeValid(t) && jobId !in t.jobs && documentId !in t.documents
    ensures var (t', r) := Enqueue(t, req, jobId, documentId, now);
      && (r.Err? ==> t' == t)
      && if !HasText(req.scope.organization) || !HasText(req.scope.workspace) then r == Err(EmptyScope)
         else if !HasText(req.name) then r == Err(EmptyName)
         else if !HasText(req.content) then r == Err(EmptyContent)
         else match req.idempotencyKey
              case None => r.Ok?
              case Some(key) =>
                if !HasText(key) then r == Err(EmptyIdempotencyKey)
                else if |Text.EncodeAll(key)| > 256 then r == Err(IdempotencyKeyTooLong)
                else r.Ok?
  {
    hide IntakeValid, Chunker.IsBlank, HasText, Enqueue, Text.EncodeAll;
    EnqueueKeepsValid(t, req, jobId, documentId, now);
    BlankIff(req.scope.organization);
    BlankIff(req.scope.workspace);
    BlankIff(req.name);
    BlankIff(req.content);
    if req.idempotencyKey.Some? { BlankIff(req.idempotencyKey.value); }
    InvalidIsAnswer(t, req, jobId, documentId, now);
  }

  /** A job of the same workspace with the request's own key, or with the same content. */
  predicate SharesKey(job: Job, req: NewDocument) {
    job.scope == req.scope && req.idempotencyKey.Some? && job.idempotencyKey == req.idempotencyKey
  }

  predicate SharesContent(job: Job, req: NewDocument) {
    job.scope == req.scope && job.inputSha == Sha256(req.content)
  }

  predicate IsRow(t: Intake, job: Job) {
    job.id in t.jobs && t.jobs[job.id] == job
  }

  lemma KeysAreShared(t: Intake, req: NewDocument)
    requires IntakeValid(t)
    ensures (req.idempotencyKey.Some? && IdempotencyKeyOf(req.scope, req.idempotencyKey.value) in t.idempotency)
            <==> exists j :: j in t.jobs && SharesKey(t.jobs[j], req)
    ensures req.idempotencyKey.Some? ==>
              var k := IdempotencyKeyOf(req.scope, req.idempotencyKey.value);
              k in t.idempotency ==> t.idempotency[k] in t.jobs && SharesKey(t.jobs[t.idempotency[k]], req)
    ensures DedupKeyOf(req) in t.dedup <==> exists j :: j in t.jobs && SharesContent(t.jobs[j], req)
    ensures DedupKeyOf(req) in t.dedup ==>
              t.dedup[DedupKeyOf(req)] in t.jobs && SharesContent(t.jobs[t.dedup[DedupKeyOf(req)]], req)
  {
    hide JobsLinked, StatusFields, Chunker.IsBlank;
    assert forall j :: j in t.jobs ==> JobWellFormed(t.jobs[j], t.payloads[j]);
  }

  /** The rows of a new document: one job, queued at once and never attempted, one document, one payload. */
  ghost predicate NewRows(t: Intake, t': Intake, req: NewDocument, jobId: Uuid, documentId: Uuid, now: nat) {
    && t'.jobs == t.jobs[jobId := Job(jobId, documentId, req.scope, Queued, 0, PIPELINE_VERSION, Sha256(req.content),
                                      req.idempotencyKey, None, Some(now), None, now)]
    && t'.documents == t.documents[documentId := Document(documentId, req.scope, req.name, req.source,
                                                          Sha256(req.content), 0, jobId, Queued)]
    && t'.payloads == t.payloads[jobId := req.content]
  }

  /**
   * Whom a well-formed request is answered with: the job of its workspace that was created under its key;
   * failing that, the job of its workspace with the same content; failing that, a new job.
   */
  lemma AnsweredWith(t: Intake, req: NewDocument, jobId: Uuid, documentId: Uuid, now: nat)
    requires IntakeValid(t) && jobId !in t.jobs && documentId !in t.documents && ValidateDocument(req).None?
    ensures var (t', r) := Enqueue(t, req, jobId, documentId, now);
      && r.Ok?
      && if exists j :: j in t.jobs && SharesKey(t.jobs[j], req) then
           t' == t && r.value.deduplicated && IsRow(t, r.value.job) && SharesKey(r.value.job, req)
         else if exists j :: j in t.jobs && SharesContent(t.jobs[j], req) then
           t' == t && r.value.deduplicated && IsRow(t, r.value.job) && SharesContent(r.value.job, req)
         else
           !r.value.deduplicated && r.value.job.id == jobId && NewRows(t, t', req, jobId, documentId, now)
  {
    hide ValidateDocument, IntakeValid, Chunker.IsBlank;
    KeysAreShared(t, req);
    FoundJobIsNamed(t, req);
  }
}
