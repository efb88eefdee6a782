/** Workspace usage and the limits that are checked just before a write. */
module Quotas {
  import opened Basics
  import opened StoreTypes
  import opened IntakeSpec
  import opened IntakeProofs
  import G = GovernanceTypes
  import MemorySpec
  import Admission
  import Text
  import Chunker

  const USIZE_MAX := 0xFFFF_FFFF_FFFF_FFFF

  datatype Limits = Limits(maxDocumentBytes: nat, maxDocuments: nat, maxIngestionBytes: nat, maxBlobBytes: nat,
                           maxBlobsBytes: nat, maxMemories: nat, maxMemoryBytes: nat)

  datatype BlobKey = BlobKey(scope: Scope, sha: Digest)

  datatype Blob = Blob(bytes: nat, mediaType: string)

  type Memories = map<Uuid, G.Memory>

  type Blobs = map<BlobKey, Blob>

  function SaturatingAdd(a: nat, b: nat): nat {
    if a + b > USIZE_MAX then USIZE_MAX else a + b
  }

  // ------------------------------------------------- usage

  /** The payload bytes of the documents of one workspace. */
  function DocumentSizes(t: Intake, scope: Scope): map<Uuid, nat> {
    PayloadSizes(t.documents, t.payloads, scope)
  }

  function PayloadSizes(documents: map<Uuid, Document>, payloads: map<Uuid, string>, scope: Scope): map<Uuid, nat> {
    map d | d in documents && documents[d].scope == scope && documents[d].jobId in payloads ::
      Text.Utf8Len(payloads[documents[d].jobId])
  }

  function MemorySizes(memories: Memories, scope: Scope): map<Uuid, nat> {
    map m | m in memories && memories[m].scope == scope :: Text.Utf8Len(memories[m].content)
  }

  function BlobSizes(blobs: Blobs, scope: Scope): map<BlobKey, nat> {
    map k | k in blobs && k.scope == scope :: blobs[k].bytes
  }

  datatype Measure = Measure(count: nat, bytes: nat)

  /** The document count of a workspace and the saturating sum of their bytes. */
  method MeasureDocuments(t: Intake, scope: Scope) returns (r: Measure)
    requires IntakeValid(t)
    ensures r.count == |DocumentSizes(t, scope)| && r.bytes == SaturatingAdd(0, SumOf(DocumentSizes(t, scope)))
  {
    hide IntakeValid, InOrder, Ascending, Text.Utf8Len, Among, DocumentSizes;
    ghost var sizes := DocumentSizes(t, scope);
    var keys := InOrder(t.documents.Keys);
    var count, total := 0, 0;
    AmongNone(sizes, keys);
    for i := 0 to |keys|
      invariant count == |Among(sizes, keys[..i])| && total == SaturatingAdd(0, SumOf(Among(sizes, keys[..i])))
    {
      var d := keys[i];
      AmongOneMore(sizes, keys, i);
      DocumentHasSize(t, scope, d);
      if t.documents[d].scope != scope { continue; }
      var bytes := Text.Utf8Len(t.payloads[t.documents[d].jobId]);
      SumUpdate(Among(sizes, keys[..i]), d, bytes);
      count, total := count + 1, SaturatingAdd(total, bytes);
    }
    DocumentKeys(t, scope);
    AmongAll(sizes, keys);
    return Measure(count, total);
  }

  lemma DocumentHasSize(t: Intake, scope: Scope, d: Uuid)
    requires IntakeValid(t) && d in t.documents
    ensures t.documents[d].jobId in t.payloads
    ensures d in DocumentSizes(t, scope) <==> t.documents[d].scope == scope
    ensures d in DocumentSizes(t, scope) ==>
              DocumentSizes(t, scope)[d] == Text.Utf8Len(t.payloads[t.documents[d].jobId])
  {
    hide DedupExact, IdempotencyExact, JobWellFormed, Text.Utf8Len;
    assert DocumentLinked(t.jobs, t.documents[d], d);
  }

  lemma DocumentKeys(t: Intake, scope: Scope)
    ensures DocumentSizes(t, scope).Keys <= t.documents.Keys
  {
  }

  method MeasureMemories(memories: Memories, scope: Scope) returns (r: Measure)
    ensures r == Measure(|MemorySizes(memories, scope)|, SumOf(MemorySizes(memories, scope)))
  {
    hide InOrder, Ascending, Text.Utf8Len, Among;
    ghost var sizes := MemorySizes(memories, scope);
    var keys := InOrder(memories.Keys);
    var count, total := 0, 0;
    AmongNone(sizes, keys);
    for i := 0 to |keys|
      invariant count == |Among(sizes, keys[..i])| && total == SumOf(Among(sizes, keys[..i]))
    {
      AmongOneMore(sizes, keys, i);
      if memories[keys[i]].scope != scope { continue; }
      var bytes := Text.Utf8Len(memories[keys[i]].content);
      SumUpdate(Among(sizes, keys[..i]), keys[i], bytes);
      count, total := count + 1, total + bytes;
    }
    AmongAll(sizes, keys);
    return Measure(count, total);
  }

  method MeasureBlobs(blobs: Blobs, scope: Scope) returns (total: nat)
    ensures total == SumOf(BlobSizes(blobs, scope))
  {
    var pending := blobs.Keys;
    total := 0;
    assert BlobSizes(map[], scope) == map[];
    assert blobs - pending == map[];
    while pending != {}
      invariant pending <= blobs.Keys && total == SumOf(BlobSizes(blobs - pending, scope))
    {
      var k :| k in pending;
      OneMoreBlob(blobs, pending, k, scope);
      pending := pending - {k};
      if k.scope == scope { total := total + blobs[k].bytes; }
    }
    assert blobs - {} == blobs;
  }

  lemma OneMoreBlob(blobs: Blobs, pending: set<BlobKey>, k: BlobKey, scope: Scope)
    requires k in pending && pending <= blobs.Keys
    ensures SumOf(BlobSizes(blobs - (pending - {k}), scope))
         == SumOf(BlobSizes(blobs - pending, scope)) + if k.scope == scope then blobs[k].bytes else 0
  {
    var before, after := BlobSizes(blobs - pending, scope), BlobSizes(blobs - (pending - {k}), scope);
    if k.scope == scope {
      assert after == before[k := blobs[k].bytes];
      SumUpdate(before, k, blobs[k].bytes);
    } else {
      assert after == before;
    }
  }

  // ------------------------------------------------- the checks

  /** The byte check that all three quotas make. */
  predicate Fits(used: nat, extra: nat, limit: nat) {
    SaturatingAdd(used, extra) <= limit
  }

  /** The byte check means what it says exactly for limits below the machine maximum. */
  lemma FitsExactly(used: nat, extra: nat, limit: nat)
    requires limit <= USIZE_MAX
    ensures Fits(used, extra, limit) <==> used + extra <= limit || limit == USIZE_MAX
  {
  }

  function CheckDocument(t: Intake, req: NewDocument, usedBytes: nat, limits: Limits): Option<Failure> {
    var bytes := Text.Utf8Len(req.content);
    if bytes > limits.maxDocumentBytes then Some(QuotaExceeded)
    else if MemorySpec.CheckScope(req.scope).Some? then MemorySpec.CheckScope(req.scope)
    else if |DocumentSizes(t, req.scope)| >= limits.maxDocuments then Some(QuotaExceeded)
    else if !Fits(usedBytes, bytes, limits.maxIngestionBytes) then Some(QuotaExceeded)
    else None
  }

  /** `enforce_document_limits`. */
  method EnforceDocumentLimits(t: Intake, req: NewDocument, limits: Limits) returns (r: Option<Failure>)
    requires IntakeValid(t)
    ensures r == CheckDocument(t, req, SaturatingAdd(0, SumOf(DocumentSizes(t, req.scope))), limits)
  {
    hide IntakeValid, Text.Utf8Len, DocumentSizes, Chunker.IsBlank;
    var bytes := Text.Utf8Len(req.content);
    if bytes > limits.maxDocumentBytes { return Some(QuotaExceeded); }
    var badScope := MemorySpec.CheckScope(req.scope);
    if badScope.Some? { return badScope; }
    var usage := MeasureDocuments(t, req.scope);
    if usage.count >= limits.maxDocuments { return Some(QuotaExceeded); }
    if SaturatingAdd(usage.bytes, bytes) > limits.maxIngestionBytes { return Some(QuotaExceeded); }
    return None;
  }

  function CheckMemory(memories: Memories, new': G.NewMemory, usedBytes: nat, limits: Limits): Option<Failure> {
    var bytes := Text.Utf8Len(new'.content);
    if MemorySpec.CheckScope(new'.scope).Some? then MemorySpec.CheckScope(new'.scope)
    else if |MemorySizes(memories, new'.scope)| >= limits.maxMemories then Some(QuotaExceeded)
    else if bytes > limits.maxMemoryBytes || !Fits(usedBytes, bytes, limits.maxMemoryBytes) then Some(QuotaExceeded)
    else None
  }

  /** `enforce_memory_limits`. */
  method EnforceMemoryLimits(memories: Memories, new': G.NewMemory, limits: Limits) returns (r: Option<Failure>)
    ensures r == CheckMemory(memories, new', SumOf(MemorySizes(memories, new'.scope)), limits)
  {
    hide Text.Utf8Len, MemorySizes, Chunker.IsBlank;
    var bytes := Text.Utf8Len(new'.content);
    var badScope := MemorySpec.CheckScope(new'.scope);
    if badScope.Some? { return badScope; }
    var usage := MeasureMemories(memories, new'.scope);
    if usage.count >= limits.maxMemories { return Some(QuotaExceeded); }
    if bytes > limits.maxMemoryBytes || SaturatingAdd(usage.bytes, bytes) > limits.maxMemoryBytes {
      return Some(QuotaExceeded);
    }
    return None;
  }

  function CheckBlob(blobs: Blobs, scope: Scope, bytes: nat, sha: Digest, used: nat, limits: Limits): Option<Failure> {
    if bytes > limits.maxBlobBytes then Some(QuotaExceeded)
    else if MemorySpec.CheckScope(scope).Some? then MemorySpec.CheckScope(scope)
    else if BlobKey(scope, sha) !in blobs && !Fits(used, bytes, limits.maxBlobsBytes) then Some(QuotaExceeded)
    else None
  }

  /** `enforce_blob_limits`. */
  method EnforceBlobLimits(blobs: Blobs, scope: Scope, bytes: nat, sha: Digest,
                           limits: Limits) returns (r: Option<Failure>)
    ensures r == CheckBlob(blobs, scope, bytes, sha, SumOf(BlobSizes(blobs, scope)), limits)
  {
    hide BlobSizes, Chunker.IsBlank;
    if bytes > limits.maxBlobBytes { return Some(QuotaExceeded); }
    var badScope := MemorySpec.CheckScope(scope);
    if badScope.Some? { return badScope; }
    var used := MeasureBlobs(blobs, scope);
    var alreadyCounted := BlobKey(scope, sha) in blobs;
    if !(alreadyCounted || SaturatingAdd(used, bytes) <= limits.maxBlobsBytes) { return Some(QuotaExceeded); }
    return None;
  }

  // ------------------------------------------------- when the checks let something pass

  /** The sum stays within the limit; a limit of the machine maximum is none. */
  predicate Holds(used: nat, extra: nat, limit: nat) {
    used + extra <= limit || limit == 0xFFFF_FFFF_FFFF_FFFF
  }

  /** A document passes exactly when it is small enough and its workspace, named, has room for it. */
  lemma DocumentPasses(t: Intake, req: NewDocument, limits: Limits)
    requires IntakeValid(t) && limits.maxIngestionBytes <= USIZE_MAX
    ensures var bytes := |Text.EncodeAll(req.content)|;
      var over := CheckDocument(t, req, UsedByDocuments(t, req.scope), limits);
      && (over.None? <==>
            && bytes <= limits.maxDocumentBytes
            && Admission.HasText(req.scope.organization) && Admission.HasText(req.scope.workspace)
            && |DocumentsIn(t, req.scope)| < limits.maxDocuments
            && Holds(SumOf(DocumentSizes(t, req.scope)), bytes, limits.maxIngestionBytes))
      && (over == Some(EmptyScope) <==>
            && bytes <= limits.maxDocumentBytes
            && !(Admission.HasText(req.scope.organization) && Admission.HasText(req.scope.workspace)))
      && (over.Some? ==> over.value == EmptyScope || over.value == QuotaExceeded)
  {
    hide IntakeValid, Text.EncodeAll, Admission.HasText, DocumentSizes, SumOf, Chunker.IsBlank;
    Admission.BlankIff(req.scope.organization);
    Admission.BlankIff(req.scope.workspace);
    DocumentsAreSized(t, req.scope);
  }

  lemma DocumentsAreSized(t: Intake, scope: Scope)
    requires IntakeValid(t)
    ensures DocumentSizes(t, scope).Keys == DocumentsIn(t, scope)
    ensures |DocumentSizes(t, scope)| == |DocumentsIn(t, scope)|
  {
    hide IntakeValid, DocumentSizes;
    forall d
      ensures d in DocumentSizes(t, scope) <==> d in DocumentsIn(t, scope)
    {
      DocumentKeys(t, scope);
      if d in t.documents { DocumentHasSize(t, scope, d); }
    }
    assert DocumentSizes(t, scope).Keys == DocumentsIn(t, scope);
  }

  /** A memory passes exactly when its workspace, named, has room for it. */
  lemma MemoryPasses(memories: Memories, new': G.NewMemory, limits: Limits)
    requires limits.maxMemoryBytes <= USIZE_MAX
    ensures var bytes := |Text.EncodeAll(new'.content)|;
      var sizes := MemorySizes(memories, new'.scope);
      var over := CheckMemory(memories, new', SumOf(sizes), limits);
      && (over.None? <==>
            && Admission.HasText(new'.scope.organization) && Admission.HasText(new'.scope.workspace)
            && |sizes| < limits.maxMemories && bytes <= limits.maxMemoryBytes
            && Holds(SumOf(sizes), bytes, limits.maxMemoryBytes))
      && sizes.Keys == (set m | m in memories && memories[m].scope == new'.scope)
      && (over == Some(EmptyScope) <==>
            !(Admission.HasText(new'.scope.organization) && Admission.HasText(new'.scope.workspace)))
      && (over.Some? ==> over.value == EmptyScope || over.value == QuotaExceeded)
  {
    hide Text.EncodeAll, Admission.HasText, SumOf, Chunker.IsBlank;
    Admission.BlankIff(new'.scope.organization);
    Admission.BlankIff(new'.scope.workspace);
  }

  /** A blob passes exactly when it is small enough and its workspace, named, has it already or has room for it. */
  lemma BlobPasses(blobs: Blobs, scope: Scope, bytes: nat, sha: Digest, limits: Limits)
    requires limits.maxBlobsBytes <= USIZE_MAX
    ensures var over := CheckBlob(blobs, scope, bytes, sha, SumOf(BlobSizes(blobs, scope)), limits);
      && (over.None? <==>
            && bytes <= limits.maxBlobBytes
            && Admission.HasText(scope.organization) && Admission.HasText(scope.workspace)
            && (BlobKey(scope, sha) in blobs || Holds(SumOf(BlobSizes(blobs, scope)), bytes, limits.maxBlobsBytes)))
      && (over.Some? ==> over.value == EmptyScope || over.value == QuotaExceeded)
  {
    hide Admission.HasText, SumOf, BlobSizes, Chunker.IsBlank;
    Admission.BlankIff(scope.organization);
    Admission.BlankIff(scope.workspace);
  }

  // ------------------------------------------------- limited operations

  ghost function UsedByDocuments(t: Intake, scope: Scope): nat {
    SaturatingAdd(0, SumOf(DocumentSizes(t, scope)))
  }

  /** `enqueue_document_with_limits`: a request that is answered from the indexes is not measured. */
  ghost function EnqueueLimited(t: Intake, req: NewDocument, limits: Limits, jobId: Uuid, documentId: Uuid, now: nat):
    (Intake, Result<Receipt>)
  {
    var over := CheckDocument(t, req, UsedByDocuments(t, req.scope), limits);
    if ExistingJob(t, req).None? && over.Some? then (t, Err(over.value)) else Enqueue(t, req, jobId, documentId, now)
  }

  /** `create_memory_with_limits`, on the memory table. */
  ghost function CreateLimited(memories: Memories, new': G.NewMemory, limits: Limits, id: Uuid, now: nat): Memories {
    if CheckMemory(memories, new', SumOf(MemorySizes(memories, new'.scope)), limits).Some? then memories
    else MemorySpec.Create(G.Registry(memories, map[], []), new', id, now).0.memories
  }

  /** `put_blob_with_limits`: `content` is the blob, one character a byte. */
  ghost function PutLimited(blobs: Blobs, scope: Scope, mediaType: string, content: string, sha: Digest,
                            limits: Limits):
    Blobs
  {
    if CheckBlob(blobs, scope, |content|, sha, SumOf(BlobSizes(blobs, scope)), limits).Some? then blobs
    else if sha != Sha256(content) then blobs
    else blobs[BlobKey(scope, sha) := Blob(|content|, mediaType)]
  }

  /** The check runs exactly when a new document would be created; replays are answered and charge nothing. */
  lemma ChargedIffCreated(t: Intake, req: NewDocument, limits: Limits, jobId: Uuid, documentId: Uuid, now: nat)
    requires IntakeValid(t) && jobId !in t.jobs && documentId !in t.documents && ValidateDocument(req).None?
    ensures ExistingJob(t, req).None? <==> Enqueue(t, req, jobId, documentId, now).0 != t
    ensures ExistingJob(t, req).Some? ==>
              && EnqueueLimited(t, req, limits, jobId, documentId, now) == Enqueue(t, req, jobId, documentId, now)
              && EnqueueLimited(t, req, limits, jobId, documentId, now).0 == t
  {
    hide ValidateDocument, IntakeValid, CheckDocument, ExistingJob;
    EnqueueKeepsValid(t, req, jobId, documentId, now);
    CreatedIffUnknown(t, req, jobId, documentId, now);
  }

  lemma CreatedIffUnknown(t: Intake, req: NewDocument, jobId: Uuid, documentId: Uuid, now: nat)
    requires jobId !in t.jobs && ValidateDocument(req).None?
    ensures ExistingJob(t, req).None? <==> Enqueue(t, req, jobId, documentId, now).0 != t
  {
    hide ValidateDocument, ExistingJob;
    assert jobId in Admit(t, req, jobId, documentId, now).jobs;
  }

  // ------------------------------------------------- the blob table

  class BlobTable {
    var blobs: Blobs

    constructor ()
      ensures blobs == map[]
    {
      blobs := map[];
    }

    method PutBlobWithLimits(scope: Scope, mediaType: string, content: string, sha: Digest, limits: Limits)
      returns (r: Result<BlobKey>)
      modifies this
      ensures blobs == PutLimited(old(blobs), scope, mediaType, content, sha, limits)
      ensures r.Ok? <==>
                && CheckBlob(old(blobs), scope, |content|, sha, SumOf(BlobSizes(old(blobs), scope)), limits).None?
                && sha == Sha256(content)
      ensures r.Ok? ==> r.value == BlobKey(scope, sha) && r.value in blobs
    {
      hide BlobSizes, CheckBlob;
      var over := EnforceBlobLimits(blobs, scope, |content|, sha, limits);
      if over.Some? { return Err(over.value); }
      if sha != Sha256(content) { return Err(DigestMismatch); }
      blobs := blobs[BlobKey(scope, sha) := Blob(|content|, mediaType)];
      return Ok(BlobKey(scope, sha));
    }
  }
}
