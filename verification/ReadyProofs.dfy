/** The canonical filters of the three rebuilds select exactly the live chunks. */
module ReadyProofs {
  import opened Basics
  import opened GraphTypes
  import opened GraphProjection
  import opened StoreTypes
  import opened IntakeSpec
  import opened StoreSpec
  import opened PrepareProofs
  import opened PublishProofs

  function ChunksById(chunks: map<ChunkKey, Chunk>): map<Uuid, Chunk>
    requires UniqueIds(chunks)
  {
    map k | k in chunks :: chunks[k].id := chunks[k]
  }

  /** The part of the filter that looks behind a manifest: its chunk row and document. */
  predicate Servable(documents: map<Uuid, Document>, byId: map<Uuid, Chunk>, scope: Scope, chunkId: Uuid, sha: Digest) {
    && chunkId in byId && byId[chunkId].documentId in documents
    && documents[byId[chunkId].documentId].scope == scope
    && documents[byId[chunkId].documentId].status == Succeeded
    && sha == Sha256(byId[chunkId].content)
  }

  predicate TextReady(documents: map<Uuid, Document>, byId: map<Uuid, Chunk>, scope: Scope, m: TextManifest) {
    && m.scope == scope && m.state == Ready && m.pipelineVersion == PIPELINE_VERSION
    && Servable(documents, byId, scope, m.chunkId, m.sourceSha)
  }

  predicate VectorReady(documents: map<Uuid, Document>, byId: map<Uuid, Chunk>, scope: Scope, profile: Profile,
                        m: VectorManifest) {
    && m.scope == scope && m.state == Ready && m.profile == profile && m.pipelineVersion == PIPELINE_VERSION
    && Servable(documents, byId, scope, m.chunkId, m.sourceSha)
  }

  predicate GraphReady(documents: map<Uuid, Document>, byId: map<Uuid, Chunk>, scope: Scope, m: GraphManifest) {
    && m.scope == scope && m.state == Ready && m.pipelineVersion == PIPELINE_VERSION
    && m.extractor == DETERMINISTIC_EXTRACTOR && m.extractionVersion == EXTRACTION_VERSION
    && Servable(documents, byId, scope, m.chunkId, m.sourceSha)
  }

  lemma ChunkById(chunks: map<ChunkKey, Chunk>, k: ChunkKey)
    requires UniqueIds(chunks) && k in chunks
    ensures chunks[k].id in ChunksById(chunks) && ChunksById(chunks)[chunks[k].id] == chunks[k]
  {
  }

  lemma RowOfChunk(chunks: map<ChunkKey, Chunk>, i: Uuid) returns (k: ChunkKey)
    requires UniqueIds(chunks) && i in ChunksById(chunks)
    ensures k in chunks && chunks[k] == ChunksById(chunks)[i] && chunks[k].id == i
  {
    k :| k in chunks && chunks[k].id == i;
  }

  lemma TextReadyIsLive(s: Store, scope: Scope, i: Uuid)
    requires RecordsValid(s) && i in s.texts.manifests
    ensures TextReady(s.intake.documents, ChunksById(s.chunks), scope, s.texts.manifests[i]) <==> i in Live(s, scope)
    ensures i in Live(s, scope) ==> i in ChunksById(s.chunks) && ChunksById(s.chunks)[i].content == Live(s, scope)[i]
    ensures i in ChunksById(s.chunks) ==> ChunksById(s.chunks)[i].id == i
    ensures s.texts.manifests[i].chunkId == i
  {
    hide IntakeValid, SucceededComplete, KeysAllocated, UniqueKeys, UniqueIds, LiveIn, ChunksById, ChunksOf;
    assert SameManifest(i, s.vectors.manifests[i], s.texts.manifests[i], s.graphManifests[i]);
    if i in ChunksById(s.chunks) {
      var k := RowOfChunk(s.chunks, i);
      assert RowMatches(s.intake.documents, s.intake.payloads, k, s.chunks[k]);
      assert RowManifested(s.intake.documents, s.texts.manifests, k, s.chunks[k]);
      if IsLive(s.intake.documents, scope, k.document) { LiveEntry(s.intake.documents, s.chunks, scope, k); }
    }
    if i in Live(s, scope) {
      var k := LiveOrigin(s.intake.documents, s.chunks, scope, i);
      ChunkById(s.chunks, k);
      assert RowManifested(s.intake.documents, s.texts.manifests, k, s.chunks[k]);
      assert RowMatches(s.intake.documents, s.intake.payloads, k, s.chunks[k]);
    }
  }

  lemma VectorReadyIsLive(s: Store, scope: Scope, profile: Profile, i: Uuid)
    requires RecordsValid(s) && i in s.texts.manifests
    ensures i in s.vectors.manifests
    ensures VectorReady(s.intake.documents, ChunksById(s.chunks), scope, profile, s.vectors.manifests[i])
       <==> i in Live(s, scope) && s.vectors.manifests[i].profile == profile
    ensures s.vectors.manifests[i].chunkId == i
    ensures i in Live(s, scope) ==> s.vectors.manifests[i].scope == scope
  {
    hide IntakeValid, SucceededComplete, KeysAllocated, UniqueKeys, UniqueIds, LiveIn, ChunksById, ManifestsExact,
         RowsMatch, Servable;
    TextReadyIsLive(s, scope, i);
    assert SameManifest(i, s.vectors.manifests[i], s.texts.manifests[i], s.graphManifests[i]);
  }

  lemma GraphReadyIsLive(s: Store, scope: Scope, i: Uuid)
    requires RecordsValid(s) && i in s.texts.manifests
    ensures i in s.graphManifests && s.graphManifests[i].chunkId == i
    ensures GraphReady(s.intake.documents, ChunksById(s.chunks), scope, s.graphManifests[i]) <==> i in Live(s, scope)
  {
    hide IntakeValid, SucceededComplete, KeysAllocated, UniqueKeys, UniqueIds, LiveIn, ChunksById, ManifestsExact,
         RowsMatch, Servable;
    TextReadyIsLive(s, scope, i);
    assert SameManifest(i, s.vectors.manifests[i], s.texts.manifests[i], s.graphManifests[i]);
  }

  lemma LiveHasManifests(s: Store, scope: Scope)
    requires RecordsValid(s)
    ensures Live(s, scope).Keys <= s.texts.manifests.Keys
  {
    hide IntakeValid, RowsMatch, SucceededComplete, KeysAllocated, UniqueKeys, UniqueIds, LiveIn, ManifestsAgree,
         ManifestsExact;
    forall i | i in Live(s, scope)
      ensures i in s.texts.manifests
    {
      LiveManifest(s.intake.documents, s.chunks, s.texts.manifests, scope, i);
    }
  }

  // ------------------------------------------------- one manifest at a time

  /** The ANN key of one more live chunk is not taken yet. */
  lemma KeyedOneMore(manifests: map<Uuid, VectorManifest>, texts: map<Uuid, string>, scope: Scope, profile: Profile,
                     i: Uuid, content: string)
    requires UniqueKeys(manifests) && i in manifests && i !in texts
    requires manifests[i].scope == scope
    ensures manifests[i].annKey !in KeyedBy(manifests, texts, scope, profile)
    ensures KeyedBy(manifests, texts[i := content], scope, profile) ==
            if manifests[i].profile == profile
            then KeyedBy(manifests, texts, scope, profile)[manifests[i].annKey := content]
            else KeyedBy(manifests, texts, scope, profile)
  {
    hide UniqueKeys, KeyedBy;
    var texts' := texts[i := content];
    var before, after := KeyedBy(manifests, texts, scope, profile), KeyedBy(manifests, texts', scope, profile);
    if manifests[i].annKey in before {
      var j := KeyedOrigin(manifests, texts, scope, profile, manifests[i].annKey);
      KeysDiffer(manifests, i, j);
    }
    if manifests[i].profile == profile { KeyedEntry(manifests, texts', scope, profile, i); }
    forall key | key in before
      ensures key in after && after[key] == before[key]
    {
      var j := KeyedOrigin(manifests, texts, scope, profile, key);
      KeyedEntry(manifests, texts', scope, profile, j);
    }
    forall key | key in after
      ensures key in before || (manifests[i].profile == profile && key == manifests[i].annKey)
    {
      var j := KeyedOrigin(manifests, texts', scope, profile, key);
      if j != i { KeyedEntry(manifests, texts, scope, profile, j); }
    }
  }

  lemma KeysDiffer(manifests: map<Uuid, VectorManifest>, i: Uuid, j: Uuid)
    requires UniqueKeys(manifests) && i in manifests && j in manifests && SameSlot(manifests[i], manifests[j])
    ensures i == j
  {
  }
}
