/** The canonical tables and on-disk indexes of the store, as values. */
module StoreTypes {
  import opened Basics
  import opened GraphProjection
  import Chunker

  const PIPELINE_VERSION := 1
  const MAX_INGESTION_ATTEMPTS := 3
  const INGESTION_LEASE_MS := 30_000
  const U64_MAX := 0xFFFF_FFFF_FFFF_FFFF

  datatype Status = Queued | Processing | Succeeded | RetryWait | DeadLetter

  datatype Document = Document(id: Uuid, scope: Scope, name: string, source: Option<string>, contentSha: Digest,
                               chunkCount: nat, jobId: Uuid, status: Status)

  datatype Job = Job(id: Uuid, documentId: Uuid, scope: Scope, status: Status, attempts: nat,
                     pipelineVersion: nat, inputSha: Digest, idempotencyKey: Option<string>,
                     lastError: Option<string>, nextAttemptAt: Option<nat>, leaseExpiresAt: Option<nat>,
                     updatedAt: nat)

  datatype DedupKey = DedupKey(scope: Scope, sha: Digest, pipelineVersion: nat)

  datatype IdempotencyKey = IdempotencyKey(scope: Scope, hash: Digest)

  /** Documents, jobs and payloads, with the two write-once admission indexes. */
  datatype Intake = Intake(documents: map<Uuid, Document>, jobs: map<Uuid, Job>, payloads: map<Uuid, string>,
                           dedup: map<DedupKey, Uuid>, idempotency: map<IdempotencyKey, Uuid>)

  datatype NewDocument = NewDocument(scope: Scope, name: string, source: Option<string>, content: string,
                                     idempotencyKey: Option<string>)

  datatype Receipt = Receipt(document: Document, job: Job, deduplicated: bool)

  datatype ClaimedJob = ClaimedJob(job: Job, content: string)

  datatype ChunkKey = ChunkKey(document: Uuid, ordinal: nat)

  datatype ManifestState = Pending | Ready

  datatype Profile = Profile(provider: string, modelRevision: string, dimensions: nat)

  datatype VectorManifest = VectorManifest(chunkId: Uuid, scope: Scope, annKey: nat, profile: Profile,
                                           pipelineVersion: nat, sourceSha: Digest, state: ManifestState)

  datatype TextManifest = TextManifest(chunkId: Uuid, scope: Scope, sourceSha: Digest, pipelineVersion: nat,
                                       state: ManifestState)

  datatype GraphManifest = GraphManifest(chunkId: Uuid, scope: Scope, sourceSha: Digest, pipelineVersion: nat,
                                         extractor: string, extractionVersion: nat, state: ManifestState)

  datatype AnnSlot = AnnSlot(scope: Scope, key: nat)

  datatype Vectors = Vectors(manifests: map<Uuid, VectorManifest>, nextKeys: map<Scope, nat>,
                             chunks: map<AnnSlot, Uuid>)

  datatype TextGeneration = TextGeneration(scope: Scope, generation: Uuid, pipelineVersion: nat)

  datatype Texts = Texts(manifests: map<Uuid, TextManifest>, active: map<Scope, TextGeneration>)

  datatype VectorPath = VectorPath(scope: Scope, profile: Profile)

  /** A generation directory under `text/`, before and after its rename. */
  datatype TextPath = Temporary(scope: Scope, generation: Uuid) | Published(scope: Scope, generation: Uuid)

  /** What a crash leaves behind besides redb: published files, each with the texts it indexes. */
  datatype Files = Files(vectors: map<VectorPath, map<nat, string>>, texts: map<TextPath, map<Uuid, string>>)

  datatype Store = Store(intake: Intake, chunks: map<ChunkKey, Chunk>, vectors: Vectors, texts: Texts,
                         graphManifests: map<Uuid, GraphManifest>, graph: Graph, files: Files)

  const EMPTY_STORE := Store(Intake(map[], map[], map[], map[], map[]), map[], Vectors(map[], map[], map[]),
                             Texts(map[], map[]), map[], EMPTY, Files(map[], map[]))

  function ChunksOf(content: string): seq<string> {
    Chunker.ChunkText(content, Chunker.MAXIMUM_CHARS)
  }

  // ------------------------------------------------- canonical content

  /** `d` is a succeeded document of `scope`: the only source of retrievable text. */
  predicate IsLive(documents: map<Uuid, Document>, scope: Scope, d: Uuid) {
    d in documents && documents[d].scope == scope && documents[d].status == Succeeded
  }

  ghost predicate UniqueIds(chunks: map<ChunkKey, Chunk>) {
    forall k, l :: k in chunks && l in chunks && chunks[k].id == chunks[l].id ==> k == l
  }

  /** The chunks of the succeeded documents of one workspace, by chunk id. */
  ghost function LiveIn(documents: map<Uuid, Document>, chunks: map<ChunkKey, Chunk>, scope: Scope): map<Uuid, string>
    requires UniqueIds(chunks)
  {
    map k | k in chunks && IsLive(documents, scope, k.document) :: chunks[k].id := chunks[k].content
  }

  predicate SameSlot(m: VectorManifest, n: VectorManifest) {
    m.scope == n.scope && m.annKey == n.annKey
  }

  ghost predicate UniqueKeys(manifests: map<Uuid, VectorManifest>) {
    forall i, j :: i in manifests && j in manifests && SameSlot(manifests[i], manifests[j]) ==> i == j
  }

  /** The live chunks of one workspace that were embedded under `profile`, by ANN key. */
  ghost function KeyedBy(manifests: map<Uuid, VectorManifest>, texts: map<Uuid, string>, scope: Scope,
                         profile: Profile): map<nat, string>
    requires UniqueKeys(manifests)
  {
    map i | i in manifests && i in texts && manifests[i].scope == scope && manifests[i].profile == profile ::
      manifests[i].annKey := texts[i]
  }

  function VectorFile(files: Files, scope: Scope, profile: Profile): map<nat, string> {
    var path := VectorPath(scope, profile);
    if path in files.vectors then files.vectors[path] else map[]
  }
}
