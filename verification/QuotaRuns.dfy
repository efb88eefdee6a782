/** Quota conservation: runs of the store and of memory governance whose growing steps are limited. */
module QuotaRuns {
  import opened Basics
  import opened StoreTypes
  import opened IntakeSpec
  import opened IntakeProofs
  import opened StoreSpec
  import opened PublishProofs
  import opened Quotas
  import G = GovernanceTypes
  import M = MemorySpec
  import R = GovernanceRuns
  import S = StoreRuns
  import JobTheorems
  import Text

  datatype Ledger = Ledger(store: Store, registry: G.Registry, blobs: Blobs)

  /** Every operation of the store and of governance, and blob uploads. */
  datatype Op =
    | StoreStep(op: S.Op)
    | GovernanceStep(step: R.Op)
    | PutBlobStep(scope: Scope, mediaType: string, content: string, sha: Digest)

  /** Enqueues and creations go through their limits; all other operations run as they are. */
  ghost function Apply(l: Ledger, op: Op, limits: Limits): Ledger
    requires StoreValid(l.store)
  {
    match op
    case StoreStep(op) =>
      if op.EnqueueOp? then
        if op.jobId in l.store.intake.jobs || op.documentId in l.store.intake.documents then l
        else
          var after := EnqueueLimited(l.store.intake, op.req, limits, op.jobId, op.documentId, op.now).0;
          l.(store := l.store.(intake := after))
      else l.(store := S.Apply(l.store, op))
    case GovernanceStep(step) =>
      if step.CreateOp? && RefusesMemory(l.registry.memories, step.new', limits) then l
      else l.(registry := R.Apply(l.registry, step))
    case PutBlobStep(scope, mediaType, content, sha) =>
      l.(blobs := PutLimited(l.blobs, scope, mediaType, content, sha, limits))
  }

  ghost predicate RefusesMemory(memories: Memories, new': G.NewMemory, limits: Limits) {
    CheckMemory(memories, new', SumOf(MemorySizes(memories, new'.scope)), limits).Some?
  }

  ghost predicate DocumentsWithin(t: Intake, limits: Limits) {
    forall scope :: |DocumentSizes(t, scope)| <= limits.maxDocuments
                    && SumOf(DocumentSizes(t, scope)) <= limits.maxIngestionBytes
  }

  ghost predicate MemoriesWithin(memories: Memories, limits: Limits) {
    forall scope :: |MemorySizes(memories, scope)| <= limits.maxMemories
                    && SumOf(MemorySizes(memories, scope)) <= limits.maxMemoryBytes
  }

  ghost predicate BlobsWithin(blobs: Blobs, limits: Limits) {
    && (forall scope :: SumOf(BlobSizes(blobs, scope)) <= limits.maxBlobsBytes)
    && (forall k :: k in blobs ==> blobs[k].bytes == |k.sha.preimage| <= limits.maxBlobBytes)
  }

  ghost predicate Within(l: Ledger, limits: Limits) {
    && StoreValid(l.store) && DocumentsWithin(l.store.intake, limits)
    && MemoriesWithin(l.registry.memories, limits) && BlobsWithin(l.blobs, limits)
  }

  predicate BelowMaximum(limits: Limits) {
    limits.maxIngestionBytes < USIZE_MAX && limits.maxMemoryBytes < USIZE_MAX && limits.maxBlobsBytes < USIZE_MAX
  }

  // ------------------------------------------------- growing steps

  lemma AdmitGrowsSizes(t: Intake, req: NewDocument, jobId: Uuid, documentId: Uuid, now: nat, scope: Scope)
    requires IntakeValid(t) && jobId !in t.jobs && documentId !in t.documents
    ensures DocumentSizes(Admit(t, req, jobId, documentId, now), scope) ==
            if scope == req.scope then DocumentSizes(t, scope)[documentId := Text.Utf8Len(req.content)]
            else DocumentSizes(t, scope)
    ensures documentId !in DocumentSizes(t, scope)
  {
    hide IntakeValid, PayloadSizes;
    DocumentsHaveJobs(t);
    SizesGrow(t.documents, t.payloads, documentId, NewDocumentRow(req, jobId, documentId), req.content, scope);
  }

  lemma SizesGrow(documents: map<Uuid, Document>, payloads: map<Uuid, string>, d: Uuid, row: Document, content: string,
                  scope: Scope)
    requires d !in documents && row.jobId !in payloads
    requires forall e :: e in documents ==> documents[e].jobId in payloads
    ensures d !in PayloadSizes(documents, payloads, scope)
    ensures PayloadSizes(documents[d := row], payloads[row.jobId := content], scope) ==
            if row.scope == scope then PayloadSizes(documents, payloads, scope)[d := Text.Utf8Len(content)]
            else PayloadSizes(documents, payloads, scope)
  {
    hide Text.Utf8Len;
  }

  lemma DocumentsHaveJobs(t: Intake)
    requires IntakeValid(t)
    ensures forall d :: d in t.documents ==> t.documents[d].jobId in t.jobs && t.documents[d].jobId in t.payloads
    ensures t.jobs.Keys == t.payloads.Keys
  {
    hide DedupExact, IdempotencyExact, JobWellFormed;
    assert forall d :: d in t.documents ==> DocumentLinked(t.jobs, t.documents[d], d);
  }

  lemma EnqueueStaysWithin(t: Intake, req: NewDocument, limits: Limits, jobId: Uuid, documentId: Uuid, now: nat)
    requires IntakeValid(t) && DocumentsWithin(t, limits) && BelowMaximum(limits)
    requires jobId !in t.jobs && documentId !in t.documents
    ensures var t' := EnqueueLimited(t, req, limits, jobId, documentId, now).0;
      IntakeValid(t') && DocumentsWithin(t', limits)
  {
    hide IntakeValid, Text.Utf8Len, ValidateDocument, DocumentSizes, ExistingJob;
    EnqueueKeepsValid(t, req, jobId, documentId, now);
    var t' := EnqueueLimited(t, req, limits, jobId, documentId, now).0;
    if t' != t {
      EnqueueAdmits(t, req, jobId, documentId, now);
      forall scope
        ensures |DocumentSizes(t', scope)| <= limits.maxDocuments
        ensures SumOf(DocumentSizes(t', scope)) <= limits.maxIngestionBytes
      {
        AdmitGrowsSizes(t, req, jobId, documentId, now, scope);
        SumUpdate(DocumentSizes(t, scope), documentId, Text.Utf8Len(req.content));
      }
    }
  }

  lemma EnqueueAdmits(t: Intake, req: NewDocument, jobId: Uuid, documentId: Uuid, now: nat)
    requires Enqueue(t, req, jobId, documentId, now).0 != t
    ensures Enqueue(t, req, jobId, documentId, now).0 == Admit(t, req, jobId, documentId, now)
    ensures ExistingJob(t, req).None?
  {
    hide ValidateDocument, ExistingJob;
  }

  lemma CreateStaysWithin(memories: Memories, new': G.NewMemory, limits: Limits, id: Uuid, now: nat)
    requires MemoriesWithin(memories, limits) && BelowMaximum(limits) && id !in memories
    ensures MemoriesWithin(CreateLimited(memories, new', limits, id, now), limits)
  {
    hide Text.Utf8Len, M.ValidateMemory, MemorySizes;
    var memories' := CreateLimited(memories, new', limits, id, now);
    if memories' != memories {
      forall scope
        ensures |MemorySizes(memories', scope)| <= limits.maxMemories
        ensures SumOf(MemorySizes(memories', scope)) <= limits.maxMemoryBytes
      {
        MemoryGrows(memories, M.ProposedMemory(new', id, now), id, scope);
        SumUpdate(MemorySizes(memories, scope), id, Text.Utf8Len(new'.content));
      }
    }
  }

  lemma MemoryGrows(memories: Memories, m: G.Memory, id: Uuid, scope: Scope)
    requires id !in memories
    ensures id !in MemorySizes(memories, scope)
    ensures MemorySizes(memories[id := m], scope) ==
            if m.scope == scope then MemorySizes(memories, scope)[id := Text.Utf8Len(m.content)]
            else MemorySizes(memories, scope)
  {
    hide Text.Utf8Len;
  }

  lemma PutStaysWithin(blobs: Blobs, scope: Scope, mediaType: string, content: string, sha: Digest, limits: Limits)
    requires BlobsWithin(blobs, limits) && BelowMaximum(limits)
    ensures BlobsWithin(PutLimited(blobs, scope, mediaType, content, sha, limits), limits)
  {
    var blobs' := PutLimited(blobs, scope, mediaType, content, sha, limits);
    if blobs' != blobs {
      var key := BlobKey(scope, sha);
      forall other
        ensures SumOf(BlobSizes(blobs', other)) <= limits.maxBlobsBytes
      {
        var sizes := BlobSizes(blobs, other);
        assert BlobSizes(blobs', other) == if other == scope then sizes[key := |content|] else sizes;
        SumUpdate(sizes, key, |content|);
      }
    }
  }

  // ------------------------------------------------- steps that no limit measures

  /** No operation but an enqueue adds a document, or changes a workspace, a job or a payload of one. */
  lemma OtherStepsKeepSizes(s: Store, op: S.Op, scope: Scope)
    requires StoreValid(s) && !op.EnqueueOp?
    ensures StoreValid(S.Apply(s, op))
    ensures DocumentSizes(S.Apply(s, op).intake, scope) == DocumentSizes(s.intake, scope)
  {
    hide StoreValid, S.Apply, IntakeValid, PayloadSizes, Extends;
    S.ApplyKeepsValid(s, op);
    var t, t' := s.intake, S.Apply(s, op).intake;
    ValidIntake(s);
    ValidIntake(S.Apply(s, op));
    forall j | j in t'.jobs
      ensures j in t.jobs
    {
      if j !in t.jobs { JobTheorems.NewJobsAreFresh(s, op, j); }
    }
    SameJobsSameSizes(t, t', scope);
  }

  lemma ValidIntake(s: Store)
    requires StoreValid(s)
    ensures IntakeValid(s.intake)
  {
    hide IntakeValid;
    ValidRecords(s);
    S.RecordsHaveIntake(s);
  }

  lemma SameJobsSameSizes(t: Intake, t': Intake, scope: Scope)
    requires IntakeValid(t) && IntakeValid(t') && Extends(t, t')
    requires forall j :: j in t'.jobs ==> j in t.jobs
    ensures DocumentSizes(t', scope) == DocumentSizes(t, scope)
  {
    hide IntakeValid, Text.Utf8Len;
    DocumentsHaveJobs(t);
    forall d | d in t'.documents
      ensures d in t.documents
    {
      DocumentWasThere(t, t', d);
    }
  }

  lemma DocumentWasThere(t: Intake, t': Intake, d: Uuid)
    requires IntakeValid(t) && IntakeValid(t') && Extends(t, t') && d in t'.documents
    requires forall j :: j in t'.jobs ==> j in t.jobs
    ensures d in t.documents
  {
    hide JobsWellFormed, DedupExact, IdempotencyExact, Keeps, KeepsDocuments;
    assert DocumentLinked(t'.jobs, t'.documents[d], d);
    var j := t'.documents[d].jobId;
    assert JobLinked(t.documents, t.jobs[j], j) && SameIdentity(t.jobs[j], t'.jobs[j]);
  }

  /** No operation but a creation adds a memory, or changes the workspace or content of one. */
  ghost predicate KeepsContent(memories: Memories, memories': Memories) {
    && memories'.Keys == memories.Keys
    && forall m :: m in memories ==>
         memories'[m].scope == memories[m].scope && memories'[m].content == memories[m].content
  }

  lemma OtherStepsKeepContent(r: G.Registry, step: R.Op)
    requires !step.CreateOp?
    ensures KeepsContent(r.memories, R.Apply(r, step).memories)
  {
    hide M.CheckTransition, M.IsDue, InOrder;
  }

  lemma MemoryStepStaysWithin(memories: Memories, memories': Memories, limits: Limits)
    requires MemoriesWithin(memories, limits) && KeepsContent(memories, memories')
    ensures MemoriesWithin(memories', limits)
  {
    hide Text.Utf8Len;
    assert forall scope :: MemorySizes(memories', scope) == MemorySizes(memories, scope);
  }

  // ------------------------------------------------- runs

  lemma StoreStepStaysWithin(s: Store, op: S.Op, limits: Limits)
    requires StoreValid(s) && DocumentsWithin(s.intake, limits) && BelowMaximum(limits)
    ensures var l' := Apply(Ledger(s, G.EMPTY_REGISTRY, map[]), StoreStep(op), limits);
      StoreValid(l'.store) && DocumentsWithin(l'.store.intake, limits)
  {
    hide StoreValid, DocumentSizes, S.Apply;
    if op.EnqueueOp? {
      if op.jobId !in s.intake.jobs && op.documentId !in s.intake.documents {
        LimitedEnqueueIsValid(s, op, limits);
        ValidIntake(s);
        EnqueueStaysWithin(s.intake, op.req, limits, op.jobId, op.documentId, op.now);
      }
    } else {
      forall scope
        ensures DocumentSizes(S.Apply(s, op).intake, scope) == DocumentSizes(s.intake, scope)
      {
        OtherStepsKeepSizes(s, op, scope);
      }
      S.ApplyKeepsValid(s, op);
    }
  }

  lemma LimitedEnqueueIsValid(s: Store, op: S.Op, limits: Limits)
    requires StoreValid(s) && op.EnqueueOp?
    requires op.jobId !in s.intake.jobs && op.documentId !in s.intake.documents
    ensures StoreValid(s.(intake := EnqueueLimited(s.intake, op.req, limits, op.jobId, op.documentId, op.now).0))
  {
    hide StoreValid, CheckDocument, Enqueue, ExistingJob;
    S.ApplyKeepsValid(s, op);
  }

  lemma GovernanceStepStaysWithin(r: G.Registry, step: R.Op, limits: Limits)
    requires MemoriesWithin(r.memories, limits) && BelowMaximum(limits)
    requires !(step.CreateOp? && RefusesMemory(r.memories, step.new', limits))
    ensures MemoriesWithin(R.Apply(r, step).memories, limits)
  {
    hide MemoriesWithin, M.Transition, M.Expire, KeepsContent, CheckMemory;
    if step.CreateOp? {
      if step.id !in r.memories {
        CreateStaysWithin(r.memories, step.new', limits, step.id, step.now);
        CreatedMemories(r, step.new', step.id, step.now);
      }
    } else {
      OtherStepsKeepContent(r, step);
      MemoryStepStaysWithin(r.memories, R.Apply(r, step).memories, limits);
    }
  }

  lemma CreatedMemories(r: G.Registry, new': G.NewMemory, id: Uuid, now: nat)
    ensures M.Create(r, new', id, now).0.memories
         == M.Create(G.Registry(r.memories, map[], []), new', id, now).0.memories
  {
    hide M.ValidateMemory;
  }

  lemma ApplyStaysWithin(l: Ledger, op: Op, limits: Limits)
    requires Within(l, limits) && BelowMaximum(limits)
    ensures Within(Apply(l, op, limits), limits)
  {
    hide StoreValid, DocumentsWithin, MemoriesWithin, BlobsWithin, BelowMaximum, RefusesMemory, EnqueueLimited,
         PutLimited, S.Apply, R.Apply;
    match op
    case StoreStep(op) => StoreStepStaysWithin(l.store, op, limits);
    case GovernanceStep(step) =>
      if !(step.CreateOp? && RefusesMemory(l.registry.memories, step.new', limits)) {
        GovernanceStepStaysWithin(l.registry, step, limits);
      }
    case PutBlobStep(scope, mediaType, content, sha) =>
      PutStaysWithin(l.blobs, scope, mediaType, content, sha, limits);
  }

  ghost function Run(l: Ledger, ops: seq<Op>, limits: Limits): (l': Ledger)
    requires Within(l, limits) && BelowMaximum(limits)
    decreases |ops|
  {
    if ops == [] then l
    else
      ApplyStaysWithin(l, ops[0], limits);
      Run(Apply(l, ops[0], limits), ops[1..], limits)
  }

  /**
   * Quota conservation. With byte limits below the machine maximum, workspaces that start within their
   * limits stay within them under every run of the store's and governance's operations and blob uploads,
   * when enqueues, memory creations and uploads are the limited ones.
   */
  lemma {:induction false} QuotasHold(l: Ledger, ops: seq<Op>, limits: Limits)
    requires Within(l, limits) && BelowMaximum(limits)
    ensures Within(Run(l, ops, limits), limits)
    decreases |ops|
  {
    hide StoreValid, DocumentsWithin, MemoriesWithin, BlobsWithin, BelowMaximum, Apply;
    if ops != [] {
      ApplyStaysWithin(l, ops[0], limits);
      QuotasHold(Apply(l, ops[0], limits), ops[1..], limits);
    }
  }
}
