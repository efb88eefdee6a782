/** The loops inside the two transactions of an ingestion attempt, table by table. */
module AttemptTables {
  import opened Basics
  import opened GraphTypes
  import opened GraphProjection
  import opened StoreTypes
  import opened StoreSpec
  import opened PrepareProofs

  // ------------------------------------------------- first transaction

  method InsertChunks(chunks: map<ChunkKey, Chunk>, ids: seq<Uuid>, documentId: Uuid, texts: seq<string>)
    returns (chunks': map<ChunkKey, Chunk>, prepared: seq<Chunk>)
    requires |ids| == |texts|
    ensures prepared == NewChunks(ids, documentId, texts)
    ensures chunks' == AddRows(chunks, prepared)
  {
    chunks', prepared := chunks, [];
    for ordinal := 0 to |texts|
      invariant |prepared| == ordinal && prepared == NewChunks(ids, documentId, texts)[..ordinal]
      invariant chunks' == AddRows(chunks, prepared)
    {
      var chunk := Chunk(ids[ordinal], documentId, ordinal, texts[ordinal]);
      chunks' := chunks'[ChunkKey(documentId, ordinal) := chunk];
      assert (prepared + [chunk])[..ordinal] == prepared;
      prepared := prepared + [chunk];
    }
  }

  /** The ANN keys that any manifest of the workspace holds. */
  function UsedKeys(manifests: map<Uuid, VectorManifest>, scope: Scope): set<nat> {
    set i | i in manifests && manifests[i].scope == scope :: manifests[i].annKey
  }

  /** The least unused key that is not below `next`. */
  method SkipUsed(used: set<nat>, next: nat) returns (r: Result<nat>)
    requires next <= U64_MAX
    ensures r.Ok? ==> next <= r.value <= U64_MAX && r.value !in used && forall k :: next <= k < r.value ==> k in used
    ensures r.Err? ==> r.error == AnnKeysExhausted && forall k :: next <= k <= U64_MAX ==> k in used
  {
    var key := next;
    while key in used
      invariant next <= key <= U64_MAX && forall k :: next <= k < key ==> k in used
      decreases U64_MAX - key
    {
      if key == U64_MAX { return Err(AnnKeysExhausted); }
      key := key + 1;
    }
    return Ok(key);
  }

  /**
   * Allocates one key for each chunk. With sound tables the keys are consecutive from the stored
   * counter, and running out of 64-bit keys is the only error.
   */
  method AllocateKeys(v: Vectors, d: Draft) returns (r: Result<Vectors>)
    requires KeysAllocated(v) && Numbered(d.documentId, d.chunks) && d.firstKey == NextKey(v.nextKeys, d.scope)
    ensures r.Ok? <==> d.firstKey + |d.chunks| <= U64_MAX
    ensures r.Ok? ==> r.value == Vectors(v.manifests, v.nextKeys[d.scope := d.firstKey + |d.chunks|],
                                         AddSlots(v.chunks, d, d.chunks))
    ensures r.Err? ==> r.error == AnnKeysExhausted
  {
    hide KeysAllocated, AddSlots, Numbered, UsedKeys;
    var used := UsedKeys(v.manifests, d.scope);
    var next := if d.scope in v.nextKeys then v.nextKeys[d.scope] else 1;
    var slots := v.chunks;
    KeysBelowCounter(v, d);
    for i := 0 to |d.chunks|
      invariant next == d.firstKey + i <= U64_MAX
      invariant forall k :: k in used ==> k < next
      invariant slots == AddSlots(v.chunks, d, d.chunks[..i])
    {
      SlotFree(v, d, i);
      assert next !in used;
      var key := SkipUsed(used, next);
      if key.Err? { return Err(AnnKeysExhausted); }
      if key.value == U64_MAX { return Err(AnnKeysExhausted); }
      next := key.value + 1;
      if AnnSlot(d.scope, key.value) in slots { return Err(AnnKeyAlreadyMapped); }
      slots := slots[AnnSlot(d.scope, key.value) := d.chunks[i].id];
      used := used + {key.value};
    }
    assert d.chunks[..|d.chunks|] == d.chunks;
    return Ok(Vectors(v.manifests, v.nextKeys[d.scope := next], slots));
  }

  lemma KeysBelowCounter(v: Vectors, d: Draft)
    requires KeysAllocated(v) && d.firstKey == NextKey(v.nextKeys, d.scope)
    ensures 1 <= d.firstKey <= U64_MAX
    ensures forall k :: k in UsedKeys(v.manifests, d.scope) ==> k < d.firstKey
    ensures AddSlots(v.chunks, d, d.chunks[..0]) == v.chunks
  {
    assert forall i :: i in v.manifests ==> KeyAllocated(v.nextKeys, v.chunks, i, v.manifests[i]);
  }

  lemma SlotFree(v: Vectors, d: Draft, i: nat)
    requires KeysAllocated(v) && Numbered(d.documentId, d.chunks) && d.firstKey == NextKey(v.nextKeys, d.scope)
    requires i < |d.chunks|
    ensures AnnSlot(d.scope, d.firstKey + i) !in AddSlots(v.chunks, d, d.chunks[..i])
    ensures AddSlots(v.chunks, d, d.chunks[..i + 1])
         == AddSlots(v.chunks, d, d.chunks[..i])[AnnSlot(d.scope, d.firstKey + i) := d.chunks[i].id]
  {
    AddSlotsExact(v.chunks, d, d.chunks[..i]);
    assert d.chunks[..i + 1][..i] == d.chunks[..i];
    SlotsBelowCounter(v);
  }

  lemma SlotsBelowCounter(v: Vectors)
    requires KeysAllocated(v)
    ensures forall slot :: slot in v.chunks ==> slot.key < NextKey(v.nextKeys, slot.scope)
  {
    forall slot | slot in v.chunks
      ensures slot.key < NextKey(v.nextKeys, slot.scope)
    {
      assert SlotBacked(v.manifests, slot, v.chunks[slot]);
      assert KeyAllocated(v.nextKeys, v.chunks, v.chunks[slot], v.manifests[v.chunks[slot]]);
    }
  }

  method InsertVectorManifests(manifests: map<Uuid, VectorManifest>, d: Draft) returns (r: map<Uuid, VectorManifest>)
    requires Numbered(d.documentId, d.chunks)
    ensures r == AddVectors(manifests, d, d.chunks)
  {
    r := manifests;
    for i := 0 to |d.chunks|
      invariant r == AddVectors(manifests, d, d.chunks[..i])
    {
      var chunk := d.chunks[i];
      assert d.chunks[..i + 1][..i] == d.chunks[..i];
      r := r[chunk.id := VectorManifest(chunk.id, d.scope, d.firstKey + i, d.profile, PIPELINE_VERSION,
                                        Sha256(chunk.content), Pending)];
    }
    assert d.chunks[..|d.chunks|] == d.chunks;
  }

  method InsertTextManifests(manifests: map<Uuid, TextManifest>, d: Draft) returns (r: map<Uuid, TextManifest>)
    ensures r == AddTexts(manifests, d, d.chunks)
  {
    r := manifests;
    for i := 0 to |d.chunks|
      invariant r == AddTexts(manifests, d, d.chunks[..i])
    {
      var chunk := d.chunks[i];
      assert d.chunks[..i + 1][..i] == d.chunks[..i];
      r := r[chunk.id := TextManifest(chunk.id, d.scope, Sha256(chunk.content), PIPELINE_VERSION, Pending)];
    }
    assert d.chunks[..|d.chunks|] == d.chunks;
  }

  method InsertGraphManifests(manifests: map<Uuid, GraphManifest>, d: Draft) returns (r: map<Uuid, GraphManifest>)
    ensures r == AddGraphs(manifests, d, d.chunks)
  {
    r := manifests;
    for i := 0 to |d.chunks|
      invariant r == AddGraphs(manifests, d, d.chunks[..i])
    {
      var chunk := d.chunks[i];
      assert d.chunks[..i + 1][..i] == d.chunks[..i];
      r := r[chunk.id := GraphManifest(chunk.id, d.scope, Sha256(chunk.content), PIPELINE_VERSION,
                                       DETERMINISTIC_EXTRACTOR, EXTRACTION_VERSION, Pending)];
    }
    assert d.chunks[..|d.chunks|] == d.chunks;
  }

  // ------------------------------------------------- final transaction

  method MarkVectorsReady(manifests: map<Uuid, VectorManifest>, chunks: seq<Chunk>)
    returns (r: Result<map<Uuid, VectorManifest>>)
    ensures r.Ok? <==> IdsOf(chunks) <= manifests.Keys
    ensures r.Ok? ==> r.value == ReadyVectors(manifests, IdsOf(chunks))
  {
    var flipped := manifests;
    for i := 0 to |chunks|
      invariant IdsOf(chunks[..i]) <= manifests.Keys && flipped == ReadyVectors(manifests, IdsOf(chunks[..i]))
    {
      OneMoreId(chunks, i);
      if chunks[i].id !in flipped { return Err(MissingManifest); }
      flipped := flipped[chunks[i].id := flipped[chunks[i].id].(state := Ready)];
    }
    assert chunks[..|chunks|] == chunks;
    return Ok(flipped);
  }

  method MarkTextsReady(manifests: map<Uuid, TextManifest>, chunks: seq<Chunk>)
    returns (r: Result<map<Uuid, TextManifest>>)
    ensures r.Ok? <==> IdsOf(chunks) <= manifests.Keys
    ensures r.Ok? ==> r.value == ReadyTexts(manifests, IdsOf(chunks))
  {
    var flipped := manifests;
    for i := 0 to |chunks|
      invariant IdsOf(chunks[..i]) <= manifests.Keys && flipped == ReadyTexts(manifests, IdsOf(chunks[..i]))
    {
      OneMoreId(chunks, i);
      if chunks[i].id !in flipped { return Err(MissingManifest); }
      flipped := flipped[chunks[i].id := flipped[chunks[i].id].(state := Ready)];
    }
    assert chunks[..|chunks|] == chunks;
    return Ok(flipped);
  }

  method MarkGraphsReady(manifests: map<Uuid, GraphManifest>, chunks: seq<Chunk>)
    returns (r: Result<map<Uuid, GraphManifest>>)
    ensures r.Ok? <==> IdsOf(chunks) <= manifests.Keys
    ensures r.Ok? ==> r.value == ReadyGraphs(manifests, IdsOf(chunks))
  {
    var flipped := manifests;
    for i := 0 to |chunks|
      invariant IdsOf(chunks[..i]) <= manifests.Keys && flipped == ReadyGraphs(manifests, IdsOf(chunks[..i]))
    {
      OneMoreId(chunks, i);
      if chunks[i].id !in flipped { return Err(MissingManifest); }
      flipped := flipped[chunks[i].id := flipped[chunks[i].id].(state := Ready)];
    }
    assert chunks[..|chunks|] == chunks;
    return Ok(flipped);
  }

  lemma OneMoreId(chunks: seq<Chunk>, i: nat)
    requires i < |chunks|
    ensures IdsOf(chunks[..i + 1]) == IdsOf(chunks[..i]) + {chunks[i].id}
    ensures chunks[i].id in IdsOf(chunks)
  {
    assert forall c :: c in chunks[..i + 1] <==> c in chunks[..i] || c == chunks[i];
  }
}
