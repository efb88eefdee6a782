/** The first transaction of an attempt: new rows and pending manifests, nothing newly visible. */
module PrepareProofs {
  import opened Basics
  import opened GraphProjection
  import opened StoreTypes
  import opened IntakeSpec
  import opened StoreSpec

  // ------------------------------------------------- drafts

  ghost predicate Numbered(documentId: Uuid, cs: seq<Chunk>) {
    forall o :: 0 <= o < |cs| ==> cs[o].documentId == documentId && cs[o].ordinal == o
  }

  /** The job a draft works on, with the chunks of its payload. */
  ghost predicate DraftOfJob(t: Intake, d: Draft) {
    && d.jobId in t.jobs && d.jobId in t.payloads
    && t.jobs[d.jobId].status == Processing
    && t.jobs[d.jobId].documentId == d.documentId && t.jobs[d.jobId].scope == d.scope
    && d.documentId in t.documents && t.documents[d.documentId].jobId == d.jobId
    && t.documents[d.documentId].scope == d.scope && t.documents[d.documentId].status == Processing
    && |d.chunks| == |ChunksOf(t.payloads[d.jobId])| && d.chunks != []
    && Numbered(d.documentId, d.chunks) && DistinctIds(d.chunks)
    && forall o :: 0 <= o < |d.chunks| ==> d.chunks[o].content == ChunksOf(t.payloads[d.jobId])[o]
  }

  ghost predicate DraftFresh(s: Store, d: Draft) {
    && DraftOfJob(s.intake, d)
    && (forall c :: c in d.chunks ==> c.id !in s.texts.manifests)
    && d.firstKey == NextKey(s.vectors.nextKeys, d.scope) && d.firstKey + |d.chunks| <= U64_MAX
  }

  ghost predicate ChunkStored(s: Store, d: Draft, c: Chunk) {
    && ChunkKey(d.documentId, c.ordinal) in s.chunks && s.chunks[ChunkKey(d.documentId, c.ordinal)] == c
    && c.id in s.vectors.manifests && s.vectors.manifests[c.id] == PendingVector(d, c)
  }

  /** A draft whose first transaction has been committed. */
  ghost predicate DraftStored(s: Store, d: Draft) {
    DraftOfJob(s.intake, d) && forall c :: c in d.chunks ==> ChunkStored(s, d, c)
  }

  // ------------------------------------------------- closed forms of the loops

  ghost predicate InRange(documentId: Uuid, cs: seq<Chunk>, k: ChunkKey) {
    k.document == documentId && k.ordinal < |cs|
  }

  lemma {:induction false} AddRowsExact(chunks: map<ChunkKey, Chunk>, documentId: Uuid, cs: seq<Chunk>)
    requires Numbered(documentId, cs)
    ensures var r := AddRows(chunks, cs);
      && (forall k :: k in r <==> k in chunks || InRange(documentId, cs, k))
      && (forall k :: k in r ==> r[k] == if InRange(documentId, cs, k) then cs[k.ordinal] else chunks[k])
  {
    if cs != [] {
      AddRowsExact(chunks, documentId, cs[..|cs| - 1]);
    }
  }

  lemma IdsOfPrefix(cs: seq<Chunk>)
    requires cs != []
    ensures IdsOf(cs) == IdsOf(cs[..|cs| - 1]) + {cs[|cs| - 1].id}
    ensures DistinctIds(cs) ==> DistinctIds(cs[..|cs| - 1]) && cs[|cs| - 1].id !in IdsOf(cs[..|cs| - 1])
  {
    var n := |cs| - 1;
    assert forall c :: c in cs <==> c in cs[..n] || c == cs[n];
    if DistinctIds(cs) {
      forall c | c in cs[..n]
        ensures c.id != cs[n].id
      {
        var i :| 0 <= i < n && cs[i] == c;
      }
    }
  }

  lemma {:induction false} AddTextsExact(m: map<Uuid, TextManifest>, d: Draft, cs: seq<Chunk>)
    requires DistinctIds(cs)
    ensures var r := AddTexts(m, d, cs);
      && r.Keys == m.Keys + IdsOf(cs)
      && (forall c :: c in cs ==> r[c.id] == PendingText(d, c))
      && (forall i :: i in m && i !in IdsOf(cs) ==> r[i] == m[i])
  {
    if cs != [] {
      IdsOfPrefix(cs);
      AddTextsExact(m, d, cs[..|cs| - 1]);
      assert forall c :: c in cs <==> c in cs[..|cs| - 1] || c == cs[|cs| - 1];
    }
  }

  lemma {:induction false} AddGraphsExact(m: map<Uuid, GraphManifest>, d: Draft, cs: seq<Chunk>)
    requires DistinctIds(cs)
    ensures var r := AddGraphs(m, d, cs);
      && r.Keys == m.Keys + IdsOf(cs)
      && (forall c :: c in cs ==> r[c.id] == PendingGraph(d, c))
      && (forall i :: i in m && i !in IdsOf(cs) ==> r[i] == m[i])
  {
    if cs != [] {
      IdsOfPrefix(cs);
      AddGraphsExact(m, d, cs[..|cs| - 1]);
      assert forall c :: c in cs <==> c in cs[..|cs| - 1] || c == cs[|cs| - 1];
    }
  }

  /** The keys `firstKey`, `firstKey + 1`, ... go to the chunks in order. */
  ghost predicate SlotInRange(d: Draft, cs: seq<Chunk>, slot: AnnSlot) {
    slot.scope == d.scope && d.firstKey <= slot.key < d.firstKey + |cs|
  }

  lemma {:induction false} AddSlotsExact(slots: map<AnnSlot, Uuid>, d: Draft, cs: seq<Chunk>)
    requires Numbered(d.documentId, cs)
    ensures var r := AddSlots(slots, d, cs);
      && (forall slot :: slot in r <==> slot in slots || SlotInRange(d, cs, slot))
      && (forall slot :: slot in r ==>
            r[slot] == if SlotInRange(d, cs, slot) then cs[slot.key - d.firstKey].id else slots[slot])
  {
    if cs != [] {
      AddSlotsExact(slots, d, cs[..|cs| - 1]);
    }
  }

  lemma {:induction false} AddVectorsExact(m: map<Uuid, VectorManifest>, d: Draft, cs: seq<Chunk>)
    requires DistinctIds(cs)
    ensures var r := AddVectors(m, d, cs);
      && r.Keys == m.Keys + IdsOf(cs)
      && (forall c :: c in cs ==> r[c.id] == PendingVector(d, c))
      && (forall i :: i in m && i !in IdsOf(cs) ==> r[i] == m[i])
  {
    if cs != [] {
      IdsOfPrefix(cs);
      AddVectorsExact(m, d, cs[..|cs| - 1]);
      assert forall c :: c in cs <==> c in cs[..|cs| - 1] || c == cs[|cs| - 1];
    }
  }

  // ------------------------------------------------- preservation

  lemma LiveEntry(documents: map<Uuid, Document>, chunks: map<ChunkKey, Chunk>, scope: Scope, k: ChunkKey)
    requires UniqueIds(chunks) && k in chunks && IsLive(documents, scope, k.document)
    ensures chunks[k].id in LiveIn(documents, chunks, scope)
    ensures LiveIn(documents, chunks, scope)[chunks[k].id] == chunks[k].content
  {
  }

  lemma LiveOrigin(documents: map<Uuid, Document>, chunks: map<ChunkKey, Chunk>, scope: Scope, i: Uuid)
    returns (k: ChunkKey)
    requires UniqueIds(chunks) && i in LiveIn(documents, chunks, scope)
    ensures k in chunks && IsLive(documents, scope, k.document) && chunks[k].id == i
    ensures LiveIn(documents, chunks, scope)[i] == chunks[k].content
  {
    k :| k in chunks && IsLive(documents, scope, k.document) && chunks[k].id == i;
  }

  /** Live texts carry over when the live rows do. */
  lemma LiveIncluded(documents: map<Uuid, Document>, chunks: map<ChunkKey, Chunk>, documents': map<Uuid, Document>,
                     chunks': map<ChunkKey, Chunk>, scope: Scope)
    requires UniqueIds(chunks) && UniqueIds(chunks')
    requires forall k :: k in chunks && IsLive(documents, scope, k.document) ==>
               k in chunks' && chunks'[k] == chunks[k] && IsLive(documents', scope, k.document)
    ensures Contains(LiveIn(documents', chunks', scope), LiveIn(documents, chunks, scope))
  {
    hide LiveIn, IsLive, UniqueIds;
    forall i | i in LiveIn(documents, chunks, scope)
      ensures i in LiveIn(documents', chunks', scope)
      ensures LiveIn(documents', chunks', scope)[i] == LiveIn(documents, chunks, scope)[i]
    {
      var k := LiveOrigin(documents, chunks, scope, i);
      LiveEntry(documents', chunks', scope, k);
    }
  }

  lemma ContainsBothWays<K, V>(a: map<K, V>, b: map<K, V>)
    requires Contains(a, b) && Contains(b, a)
    ensures a == b
  {
  }

  lemma LiveUnchanged(documents: map<Uuid, Document>, chunks: map<ChunkKey, Chunk>, documents': map<Uuid, Document>,
                      chunks': map<ChunkKey, Chunk>, scope: Scope)
    requires UniqueIds(chunks) && UniqueIds(chunks')
    requires forall k :: k in chunks && IsLive(documents, scope, k.document) ==>
               k in chunks' && chunks'[k] == chunks[k] && IsLive(documents', scope, k.document)
    requires forall k :: k in chunks' && IsLive(documents', scope, k.document) ==>
               k in chunks && IsLive(documents, scope, k.document)
    ensures LiveIn(documents', chunks', scope) == LiveIn(documents, chunks, scope)
  {
    hide LiveIn, IsLive, UniqueIds, Contains;
    LiveIncluded(documents, chunks, documents', chunks', scope);
    LiveIncluded(documents', chunks', documents, chunks, scope);
    ContainsBothWays(LiveIn(documents', chunks', scope), LiveIn(documents, chunks, scope));
  }

  lemma PrepareRows(t: Intake, chunks: map<ChunkKey, Chunk>, m: map<Uuid, TextManifest>, d: Draft)
    requires DraftOfJob(t, d) && forall c :: c in d.chunks ==> c.id !in m
    requires RowsMatch(t.documents, t.payloads, chunks) && UniqueIds(chunks)
    requires ManifestsExact(t.documents, chunks, m)
    requires SucceededComplete(t.documents, t.payloads, chunks)
    ensures var chunks' := AddRows(chunks, d.chunks);
      && RowsMatch(t.documents, t.payloads, chunks') && UniqueIds(chunks')
      && SucceededComplete(t.documents, t.payloads, chunks')
      && (forall scope :: LiveIn(t.documents, chunks', scope) == LiveIn(t.documents, chunks, scope))
  {
    hide ChunksOf;
    var chunks' := AddRows(chunks, d.chunks);
    AddRowsExact(chunks, d.documentId, d.chunks);
    forall k | k in chunks'
      ensures RowMatches(t.documents, t.payloads, k, chunks'[k])
    {
      if !InRange(d.documentId, d.chunks, k) { assert RowMatches(t.documents, t.payloads, k, chunks[k]); }
    }
    PrepareUnique(t.documents, chunks, m, d);
    forall scope
      ensures LiveIn(t.documents, chunks', scope) == LiveIn(t.documents, chunks, scope)
    {
      LiveUnchanged(t.documents, chunks, t.documents, chunks', scope);
    }
    forall e | e in t.documents && t.documents[e].status == Succeeded
      ensures RowsComplete(t.documents, t.payloads, chunks', e)
    {
      assert RowsComplete(t.documents, t.payloads, chunks, e);
    }
  }

  lemma PrepareUnique(documents: map<Uuid, Document>, chunks: map<ChunkKey, Chunk>, m: map<Uuid, TextManifest>,
                      d: Draft)
    requires Numbered(d.documentId, d.chunks) && DistinctIds(d.chunks)
    requires forall c :: c in d.chunks ==> c.id !in m
    requires UniqueIds(chunks) && ManifestsExact(documents, chunks, m)
    ensures UniqueIds(AddRows(chunks, d.chunks))
  {
    var chunks' := AddRows(chunks, d.chunks);
    AddRowsExact(chunks, d.documentId, d.chunks);
    forall k, l | k in chunks' && l in chunks' && chunks'[k].id == chunks'[l].id
      ensures k == l
    {
      assert k in chunks ==> RowManifested(documents, m, k, chunks[k]);
      assert l in chunks ==> RowManifested(documents, m, l, chunks[l]);
      if InRange(d.documentId, d.chunks, k) { assert d.chunks[k.ordinal] in d.chunks; }
      if InRange(d.documentId, d.chunks, l) { assert d.chunks[l.ordinal] in d.chunks; }
    }
  }

  lemma PrepareManifests(s: Store, d: Draft)
    requires DraftFresh(s, d)
    requires ManifestsAgree(s.vectors.manifests, s.texts.manifests, s.graphManifests)
    requires ManifestsExact(s.intake.documents, s.chunks, s.texts.manifests)
    requires KeysAllocated(s.vectors)
    ensures var s' := Prepare(s, d);
      && ManifestsAgree(s'.vectors.manifests, s'.texts.manifests, s'.graphManifests)
      && ManifestsExact(s'.intake.documents, s'.chunks, s'.texts.manifests)
  {
    hide ChunksOf;
    var s' := Prepare(s, d);
    AddTextsExact(s.texts.manifests, d, d.chunks);
    AddGraphsExact(s.graphManifests, d, d.chunks);
    AddVectorsExact(s.vectors.manifests, d, d.chunks);
    forall i | i in s'.texts.manifests
      ensures SameManifest(i, s'.vectors.manifests[i], s'.texts.manifests[i], s'.graphManifests[i])
    {
      if i in IdsOf(d.chunks) {
        var c :| c in d.chunks && c.id == i;
      } else {
        assert SameManifest(i, s.vectors.manifests[i], s.texts.manifests[i], s.graphManifests[i]);
      }
    }
    PrepareExact(s.intake, s.chunks, s.texts.manifests, d);
  }

  lemma PrepareExact(t: Intake, chunks: map<ChunkKey, Chunk>, m: map<Uuid, TextManifest>, d: Draft)
    requires DraftOfJob(t, d) && forall c :: c in d.chunks ==> c.id !in m
    requires ManifestsExact(t.documents, chunks, m)
    ensures ManifestsExact(t.documents, AddRows(chunks, d.chunks), AddTexts(m, d, d.chunks))
  {
    hide ChunksOf;
    var chunks', m' := AddRows(chunks, d.chunks), AddTexts(m, d, d.chunks);
    AddRowsExact(chunks, d.documentId, d.chunks);
    AddTextsExact(m, d, d.chunks);
    forall k | k in chunks'
      ensures RowManifested(t.documents, m', k, chunks'[k])
    {
      if InRange(d.documentId, d.chunks, k) {
        assert d.chunks[k.ordinal] in d.chunks;
      } else {
        assert RowManifested(t.documents, m, k, chunks[k]);
      }
    }
    PrepareReadyHasRow(t, chunks, m, d);
  }

  lemma PrepareReadyHasRow(t: Intake, chunks: map<ChunkKey, Chunk>, m: map<Uuid, TextManifest>, d: Draft)
    requires DraftOfJob(t, d) && ManifestsExact(t.documents, chunks, m)
    ensures var m' := AddTexts(m, d, d.chunks);
      forall i :: i in m' && m'[i].state == Ready ==> HasRow(AddRows(chunks, d.chunks), i)
  {
    hide ChunksOf;
    var chunks', m' := AddRows(chunks, d.chunks), AddTexts(m, d, d.chunks);
    AddRowsExact(chunks, d.documentId, d.chunks);
    AddTextsExact(m, d, d.chunks);
    forall i | i in m' && m'[i].state == Ready
      ensures HasRow(chunks', i)
    {
      if i !in IdsOf(d.chunks) {
        assert HasRow(chunks, i);
        var k :| k in chunks && chunks[k].id == i;
        assert RowManifested(t.documents, m, k, chunks[k]);
        assert chunks'[k] == chunks[k];
      }
    }
  }

  lemma PrepareKeys(v: Vectors, d: Draft)
    requires KeysAllocated(v) && Numbered(d.documentId, d.chunks) && DistinctIds(d.chunks) && d.chunks != []
    requires forall c :: c in d.chunks ==> c.id !in v.manifests
    requires d.firstKey == NextKey(v.nextKeys, d.scope) && d.firstKey + |d.chunks| <= U64_MAX
    ensures KeysAllocated(Vectors(AddVectors(v.manifests, d, d.chunks), v.nextKeys[d.scope := d.firstKey + |d.chunks|],
                                  AddSlots(v.chunks, d, d.chunks)))
  {
    hide AddVectors, AddSlots, KeyAllocated, SlotBacked;
    AddVectorsExact(v.manifests, d, d.chunks);
    AddSlotsExact(v.chunks, d, d.chunks);
    forall i | i in AddVectors(v.manifests, d, d.chunks)
      ensures KeyAllocated(v.nextKeys[d.scope := d.firstKey + |d.chunks|], AddSlots(v.chunks, d, d.chunks), i,
                           AddVectors(v.manifests, d, d.chunks)[i])
    {
      PrepareKey(v, d, i);
    }
    forall slot | slot in AddSlots(v.chunks, d, d.chunks)
      ensures SlotBacked(AddVectors(v.manifests, d, d.chunks), slot, AddSlots(v.chunks, d, d.chunks)[slot])
    {
      PrepareSlot(v, d, slot);
    }
  }

  lemma PrepareKey(v: Vectors, d: Draft, i: Uuid)
    requires KeysAllocated(v) && Numbered(d.documentId, d.chunks) && DistinctIds(d.chunks)
    requires d.firstKey == NextKey(v.nextKeys, d.scope)
    requires i in AddVectors(v.manifests, d, d.chunks)
    ensures KeyAllocated(v.nextKeys[d.scope := d.firstKey + |d.chunks|], AddSlots(v.chunks, d, d.chunks), i,
                         AddVectors(v.manifests, d, d.chunks)[i])
  {
    hide AddVectors, AddSlots, KeyAllocated, KeysAllocated;
    AddVectorsExact(v.manifests, d, d.chunks);
    if i in IdsOf(d.chunks) {
      var c :| c in d.chunks && c.id == i;
      NewKeyAllocated(v, d, c);
    } else {
      OldKeyStays(v, d, i);
    }
  }

  lemma NewKeyAllocated(v: Vectors, d: Draft, c: Chunk)
    requires KeysAllocated(v) && Numbered(d.documentId, d.chunks) && d.firstKey == NextKey(v.nextKeys, d.scope)
    requires c in d.chunks
    ensures KeyAllocated(v.nextKeys[d.scope := d.firstKey + |d.chunks|], AddSlots(v.chunks, d, d.chunks), c.id,
                         PendingVector(d, c))
  {
    hide AddSlots;
    AddSlotsExact(v.chunks, d, d.chunks);
    var o :| 0 <= o < |d.chunks| && d.chunks[o] == c;
    assert SlotInRange(d, d.chunks, AnnSlot(d.scope, d.firstKey + o));
  }

  lemma OldKeyStays(v: Vectors, d: Draft, i: Uuid)
    requires KeysAllocated(v) && Numbered(d.documentId, d.chunks) && d.firstKey == NextKey(v.nextKeys, d.scope)
    requires i in v.manifests
    ensures KeyAllocated(v.nextKeys[d.scope := d.firstKey + |d.chunks|], AddSlots(v.chunks, d, d.chunks), i,
                         v.manifests[i])
  {
    hide AddSlots;
    AddSlotsExact(v.chunks, d, d.chunks);
    assert KeyAllocated(v.nextKeys, v.chunks, i, v.manifests[i]);
    assert !SlotInRange(d, d.chunks, AnnSlot(v.manifests[i].scope, v.manifests[i].annKey));
  }

  lemma PrepareSlot(v: Vectors, d: Draft, slot: AnnSlot)
    requires KeysAllocated(v) && Numbered(d.documentId, d.chunks) && DistinctIds(d.chunks)
    requires forall c :: c in d.chunks ==> c.id !in v.manifests
    requires slot in AddSlots(v.chunks, d, d.chunks)
    ensures SlotBacked(AddVectors(v.manifests, d, d.chunks), slot, AddSlots(v.chunks, d, d.chunks)[slot])
  {
    hide AddVectors, AddSlots;
    AddVectorsExact(v.manifests, d, d.chunks);
    AddSlotsExact(v.chunks, d, d.chunks);
    if SlotInRange(d, d.chunks, slot) {
      var c := d.chunks[slot.key - d.firstKey];
      assert c in d.chunks;
    } else {
      assert SlotBacked(v.manifests, slot, v.chunks[slot]);
    }
  }

  /** Keys allocated by an inverse table are unique within a workspace. */
  lemma AllocatedKeysUnique(v: Vectors)
    requires KeysAllocated(v)
    ensures UniqueKeys(v.manifests)
  {
    forall i, j | i in v.manifests && j in v.manifests && SameSlot(v.manifests[i], v.manifests[j])
      ensures i == j
    {
      assert KeyAllocated(v.nextKeys, v.chunks, i, v.manifests[i])
             && KeyAllocated(v.nextKeys, v.chunks, j, v.manifests[j]);
    }
  }

  lemma PrepareStores(s: Store, d: Draft)
    requires DraftFresh(s, d)
    ensures DraftStored(Prepare(s, d), d)
  {
    hide DraftOfJob, AddRows, AddVectors, AddSlots, AddTexts, AddGraphs;
    DraftShape(s.intake, d);
    AddRowsExact(s.chunks, d.documentId, d.chunks);
    AddVectorsExact(s.vectors.manifests, d, d.chunks);
    forall c | c in d.chunks
      ensures ChunkStored(Prepare(s, d), d, c)
    {
      var o :| 0 <= o < |d.chunks| && d.chunks[o] == c;
      assert InRange(d.documentId, d.chunks, ChunkKey(d.documentId, o));
    }
  }

  lemma PrepareRecords(s: Store, d: Draft)
    requires RecordsValid(s) && DraftFresh(s, d)
    ensures RecordsValid(Prepare(s, d)) && DraftStored(Prepare(s, d), d)
    ensures forall scope :: Live(Prepare(s, d), scope) == Live(s, scope)
  {
    hide IntakeValid, RowsMatch, SucceededComplete, ManifestsExact, KeysAllocated, DraftOfJob, AddRows, AddVectors,
         AddSlots, AddTexts, AddGraphs, LiveIn;
    ManifestKeys(s);
    assert DistinctIds(d.chunks) && Numbered(d.documentId, d.chunks) && d.chunks != [] by { DraftShape(s.intake, d); }
    PrepareRows(s.intake, s.chunks, s.texts.manifests, d);
    PrepareManifests(s, d);
    PrepareKeys(s.vectors, d);
    AllocatedKeysUnique(Prepare(s, d).vectors);
    PrepareStores(s, d);
  }

  lemma DraftShape(t: Intake, d: Draft)
    requires DraftOfJob(t, d)
    ensures DistinctIds(d.chunks) && Numbered(d.documentId, d.chunks) && d.chunks != []
  {
  }

  lemma ManifestKeys(s: Store)
    requires ManifestsAgree(s.vectors.manifests, s.texts.manifests, s.graphManifests)
    ensures s.vectors.manifests.Keys == s.texts.manifests.Keys == s.graphManifests.Keys
  {
  }
}
