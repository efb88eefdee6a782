/** Publishing, committing and rebuilding: every durable step keeps the three projections exact. */
module PublishProofs {
  import opened Basics
  import opened GraphProjection
  import opened StoreTypes
  import opened IntakeSpec
  import opened IntakeProofs
  import opened StoreSpec
  import opened PrepareProofs

  // ------------------------------------------------- texts and keys of a draft

  lemma {:induction false} DraftTextsExact(cs: seq<Chunk>)
    requires DistinctIds(cs)
    ensures DraftTexts(cs).Keys == IdsOf(cs)
    ensures forall c :: c in cs ==> DraftTexts(cs)[c.id] == c.content
  {
    if cs != [] {
      IdsOfPrefix(cs);
      DraftTextsExact(cs[..|cs| - 1]);
      assert forall c :: c in cs <==> c in cs[..|cs| - 1] || c == cs[|cs| - 1];
    }
  }

  lemma {:induction false} DraftKeysExact(d: Draft, cs: seq<Chunk>)
    requires Numbered(d.documentId, cs)
    ensures forall key :: key in DraftKeys(d, cs) <==> d.firstKey <= key < d.firstKey + |cs|
    ensures forall key :: key in DraftKeys(d, cs) ==> DraftKeys(d, cs)[key] == cs[key - d.firstKey].content
  {
    if cs != [] {
      DraftKeysExact(d, cs[..|cs| - 1]);
    }
  }

  lemma KeyedEntry(manifests: map<Uuid, VectorManifest>, texts: map<Uuid, string>, scope: Scope, profile: Profile,
                   i: Uuid)
    requires UniqueKeys(manifests) && i in manifests && i in texts
    requires manifests[i].scope == scope && manifests[i].profile == profile
    ensures manifests[i].annKey in KeyedBy(manifests, texts, scope, profile)
    ensures KeyedBy(manifests, texts, scope, profile)[manifests[i].annKey] == texts[i]
  {
  }

  lemma KeyedOrigin(manifests: map<Uuid, VectorManifest>, texts: map<Uuid, string>, scope: Scope, profile: Profile,
                    key: nat) returns (i: Uuid)
    requires UniqueKeys(manifests) && key in KeyedBy(manifests, texts, scope, profile)
    ensures i in manifests && i in texts && manifests[i].scope == scope && manifests[i].profile == profile
    ensures manifests[i].annKey == key && KeyedBy(manifests, texts, scope, profile)[key] == texts[i]
  {
    i :| i in manifests && i in texts && manifests[i].scope == scope && manifests[i].profile == profile
         && manifests[i].annKey == key;
  }

  /** A live text is the text its ready manifest was made from. */
  lemma LiveManifest(documents: map<Uuid, Document>, chunks: map<ChunkKey, Chunk>, manifests: map<Uuid, TextManifest>,
                     scope: Scope, i: Uuid)
    requires UniqueIds(chunks) && ManifestsExact(documents, chunks, manifests) && i in LiveIn(documents, chunks, scope)
    ensures i in manifests && manifests[i].scope == scope && manifests[i].state == Ready
    ensures manifests[i].sourceSha == Sha256(LiveIn(documents, chunks, scope)[i])
  {
    hide LiveIn;
    var k := LiveOrigin(documents, chunks, scope, i);
    assert RowManifested(documents, manifests, k, chunks[k]);
  }

  /** Conversely, a ready manifest belongs to a live text. */
  lemma ReadyIsLive(documents: map<Uuid, Document>, chunks: map<ChunkKey, Chunk>, manifests: map<Uuid, TextManifest>,
                    i: Uuid)
    requires UniqueIds(chunks) && ManifestsExact(documents, chunks, manifests)
    requires i in manifests && manifests[i].state == Ready
    ensures i in LiveIn(documents, chunks, manifests[i].scope)
  {
    hide LiveIn;
    var k :| k in chunks && chunks[k].id == i;
    assert RowManifested(documents, manifests, k, chunks[k]);
    LiveEntry(documents, chunks, manifests[i].scope, k);
  }

  // ------------------------------------------------- steps that leave the live texts alone

  /** If nothing live changes, published files and graph stay exact. */
  lemma SameLiveKeepsPublished(s: Store, s': Store)
    requires StoreValid(s) && RecordsValid(s')
    requires s'.files == s.files && s'.texts.active == s.texts.active && s'.graph == s.graph
    requires forall scope :: Live(s', scope) == Live(s, scope)
    requires forall i :: i in s.vectors.manifests ==>
               i in s'.vectors.manifests && s'.vectors.manifests[i] == s.vectors.manifests[i]
    requires forall slot :: slot in s.vectors.chunks ==>
               slot in s'.vectors.chunks && s'.vectors.chunks[slot] == s.vectors.chunks[slot]
    ensures StoreValid(s')
  {
    hide IntakeValid, RowsMatch, SucceededComplete, ManifestsAgree, LiveIn, RowsOf, GraphFrom, KeysMatch, TextExact,
         KeyedBy, UniqueIds, UniqueKeys;
    SameFilesSound(s, s');
    forall scope, profile
      ensures LiveKeys(s', scope, profile) == LiveKeys(s, scope, profile)
    {
      SameKeys(s, s', scope, profile);
    }
  }

  lemma SameFilesSound(s: Store, s': Store)
    requires VectorFilesSound(s.vectors, s.files.vectors) && s'.files == s.files
    requires forall i :: i in s.vectors.manifests ==>
               i in s'.vectors.manifests && s'.vectors.manifests[i] == s.vectors.manifests[i]
    requires forall slot :: slot in s.vectors.chunks ==>
               slot in s'.vectors.chunks && s'.vectors.chunks[slot] == s.vectors.chunks[slot]
    ensures VectorFilesSound(s'.vectors, s'.files.vectors)
  {
    forall path, key | path in s.files.vectors && key in s.files.vectors[path]
      ensures VectorEntrySound(s'.vectors, path, key, s.files.vectors[path][key])
    {
      assert VectorEntrySound(s.vectors, path, key, s.files.vectors[path][key]);
    }
  }

  lemma SameKeys(s: Store, s': Store, scope: Scope, profile: Profile)
    requires RecordsValid(s) && RecordsValid(s') && Live(s', scope) == Live(s, scope)
    requires forall i :: i in s.vectors.manifests ==>
               i in s'.vectors.manifests && s'.vectors.manifests[i] == s.vectors.manifests[i]
    ensures LiveKeys(s', scope, profile) == LiveKeys(s, scope, profile)
  {
    hide IntakeValid, RowsMatch, SucceededComplete, LiveIn, KeyedBy, UniqueIds, UniqueKeys, KeysAllocated;
    var live := Live(s, scope);
    var m, m' := s.vectors.manifests, s'.vectors.manifests;
    forall key | key in LiveKeys(s, scope, profile)
      ensures key in LiveKeys(s', scope, profile)
      ensures LiveKeys(s', scope, profile)[key] == LiveKeys(s, scope, profile)[key]
    {
      var i := KeyedOrigin(m, live, scope, profile, key);
      KeyedEntry(m', live, scope, profile, i);
    }
    forall key | key in LiveKeys(s', scope, profile)
      ensures key in LiveKeys(s, scope, profile)
    {
      var i := KeyedOrigin(m', live, scope, profile, key);
      LiveManifest(s.intake.documents, s.chunks, s.texts.manifests, scope, i);
      ManifestKeys(s);
      KeyedEntry(m, live, scope, profile, i);
    }
  }

  /** The first transaction of an attempt keeps every projection exact. */
  lemma PrepareKeepsValid(s: Store, d: Draft)
    requires StoreValid(s) && DraftFresh(s, d)
    ensures StoreValid(Prepare(s, d)) && DraftStored(Prepare(s, d), d)
    ensures forall scope :: Live(Prepare(s, d), scope) == Live(s, scope)
  {
    hide StoreValid, DraftFresh, DraftStored, AddRows, AddVectors, AddSlots, AddTexts, AddGraphs, LiveIn;
    assert RecordsValid(s) by { ValidRecords(s); }
    PrepareRecords(s, d);
    PrepareGrows(s, d);
    SameLiveKeepsPublished(s, Prepare(s, d));
  }

  lemma ValidRecords(s: Store)
    requires StoreValid(s)
    ensures RecordsValid(s)
  {
  }

  lemma RecordsAreUnique(s: Store)
    requires RecordsValid(s)
    ensures UniqueIds(s.chunks) && UniqueKeys(s.vectors.manifests)
  {
  }

  lemma ValidIsUnique(s: Store)
    requires StoreValid(s)
    ensures UniqueIds(s.chunks) && UniqueKeys(s.vectors.manifests)
  {
  }

  lemma PrepareGrows(s: Store, d: Draft)
    requires RecordsValid(s) && DraftFresh(s, d)
    ensures var s' := Prepare(s, d);
      && (forall i :: i in s.vectors.manifests ==>
            i in s'.vectors.manifests && s'.vectors.manifests[i] == s.vectors.manifests[i])
      && (forall slot :: slot in s.vectors.chunks ==>
            slot in s'.vectors.chunks && s'.vectors.chunks[slot] == s.vectors.chunks[slot])
  {
    hide IntakeValid, RowsMatch, SucceededComplete, ManifestsExact, DraftOfJob, AddRows, AddVectors, AddSlots, AddTexts,
         AddGraphs;
    DraftShape(s.intake, d);
    ManifestKeys(s);
    AddVectorsExact(s.vectors.manifests, d, d.chunks);
    AddSlotsExact(s.vectors.chunks, d, d.chunks);
    forall slot | slot in s.vectors.chunks
      ensures !SlotInRange(d, d.chunks, slot)
    {
      var i := s.vectors.chunks[slot];
      assert SlotBacked(s.vectors.manifests, slot, i);
      assert KeyAllocated(s.vectors.nextKeys, s.vectors.chunks, i, s.vectors.manifests[i]);
    }
  }

  // ------------------------------------------------- intake steps

  ghost predicate NoNewSuccess(t: Intake, t': Intake) {
    forall d :: d in t'.documents && t'.documents[d].status == Succeeded ==>
      d in t.documents && t.documents[d].status == Succeeded
  }

  /** Admission, claims, failures, retries and recovery leave every projection exact. */
  lemma IntakeStepKeepsValid(s: Store, t': Intake)
    requires StoreValid(s) && IntakeValid(t') && Extends(s.intake, t') && NoNewSuccess(s.intake, t')
    ensures StoreValid(s.(intake := t'))
    ensures forall scope :: Live(s.(intake := t'), scope) == Live(s, scope)
  {
    hide VectorsPublished, TextsPublished, GraphPublished, VectorFilesSound, IntakeValid, KeysAllocated, ManifestsAgree,
         RowsMatch, SucceededComplete, ManifestsExact, UniqueIds, UniqueKeys, Extends, NoNewSuccess, LiveIn;
    IntakeStepRecords(s, t');
    SameLiveKeepsPublished(s, s.(intake := t'));
  }

  lemma IntakeStepRecords(s: Store, t': Intake)
    requires RecordsValid(s) && IntakeValid(t') && Extends(s.intake, t') && NoNewSuccess(s.intake, t')
    ensures RecordsValid(s.(intake := t'))
    ensures forall scope :: Live(s.(intake := t'), scope) == Live(s, scope)
  {
    hide IntakeValid, KeysAllocated, ManifestsAgree, UniqueKeys, RowMatches, RowsComplete, RowManifested;
    var t := s.intake;
    forall k | k in s.chunks
      ensures RowMatches(t'.documents, t'.payloads, k, s.chunks[k])
      ensures RowManifested(t'.documents, s.texts.manifests, k, s.chunks[k])
    {
      RowStaysMatched(s, t', k);
    }
    forall d | d in t'.documents && t'.documents[d].status == Succeeded
      ensures RowsComplete(t'.documents, t'.payloads, s.chunks, d)
    {
      assert RowsComplete(t.documents, t.payloads, s.chunks, d);
      CompleteStays(s, t', d);
    }
    forall scope
      ensures LiveIn(t'.documents, s.chunks, scope) == LiveIn(t.documents, s.chunks, scope)
    {
      LiveUnchanged(t.documents, s.chunks, t'.documents, s.chunks, scope);
    }
  }

  lemma RowStaysMatched(s: Store, t': Intake, k: ChunkKey)
    requires Extends(s.intake, t') && NoNewSuccess(s.intake, t') && k in s.chunks
    requires RowsMatch(s.intake.documents, s.intake.payloads, s.chunks)
    requires ManifestsExact(s.intake.documents, s.chunks, s.texts.manifests)
    ensures RowMatches(t'.documents, t'.payloads, k, s.chunks[k])
    ensures RowManifested(t'.documents, s.texts.manifests, k, s.chunks[k])
    ensures k.document in s.intake.documents
  {
    hide ChunksOf;
    assert RowMatches(s.intake.documents, s.intake.payloads, k, s.chunks[k]);
    assert RowManifested(s.intake.documents, s.texts.manifests, k, s.chunks[k]);
    assert SameDocument(s.intake.documents[k.document], t'.documents[k.document]);
  }

  lemma CompleteStays(s: Store, t': Intake, d: Uuid)
    requires Extends(s.intake, t') && d in s.intake.documents && s.intake.documents[d].status == Succeeded
    requires RowsComplete(s.intake.documents, s.intake.payloads, s.chunks, d)
    ensures RowsComplete(t'.documents, t'.payloads, s.chunks, d)
  {
    hide ChunksOf;
  }

  // ------------------------------------------------- vector files

  lemma LiveKeysSound(s: Store, scope: Scope, profile: Profile)
    requires RecordsValid(s)
    ensures forall key :: key in LiveKeys(s, scope, profile) ==>
              VectorEntrySound(s.vectors, VectorPath(scope, profile), key, LiveKeys(s, scope, profile)[key])
  {
    hide IntakeValid, RowsMatch, SucceededComplete, LiveIn, KeyedBy, UniqueIds, UniqueKeys;
    forall key | key in LiveKeys(s, scope, profile)
      ensures VectorEntrySound(s.vectors, VectorPath(scope, profile), key, LiveKeys(s, scope, profile)[key])
    {
      var i := KeyedOrigin(s.vectors.manifests, Live(s, scope), scope, profile, key);
      LiveManifest(s.intake.documents, s.chunks, s.texts.manifests, scope, i);
      assert SameManifest(i, s.vectors.manifests[i], s.texts.manifests[i], s.graphManifests[i]);
      assert KeyAllocated(s.vectors.nextKeys, s.vectors.chunks, i, s.vectors.manifests[i]);
    }
  }

  lemma DraftKeysSound(s: Store, d: Draft)
    requires RecordsValid(s) && DraftStored(s, d)
    ensures forall key :: key in DraftKeys(d, d.chunks) ==>
              VectorEntrySound(s.vectors, VectorPath(d.scope, d.profile), key, DraftKeys(d, d.chunks)[key])
  {
    hide IntakeValid, RowsMatch, SucceededComplete, ManifestsExact, UniqueIds, UniqueKeys, DraftOfJob, DraftKeys;
    DraftShape(s.intake, d);
    DraftKeysExact(d, d.chunks);
    forall key | key in DraftKeys(d, d.chunks)
      ensures VectorEntrySound(s.vectors, VectorPath(d.scope, d.profile), key, DraftKeys(d, d.chunks)[key])
    {
      var c := d.chunks[key - d.firstKey];
      assert c in d.chunks && ChunkStored(s, d, c);
      assert KeyAllocated(s.vectors.nextKeys, s.vectors.chunks, c.id, s.vectors.manifests[c.id]);
    }
  }

  /** A ready key never belongs to the draft, so adding the draft's keys overwrites none. */
  lemma DraftKeysFresh(s: Store, d: Draft)
    requires RecordsValid(s) && DraftStored(s, d)
    ensures LiveKeys(s, d.scope, d.profile).Keys !! DraftKeys(d, d.chunks).Keys
    ensures forall i :: i in IdsOf(d.chunks) ==> i !in Live(s, d.scope)
  {
    hide IntakeValid, RowsMatch, SucceededComplete, LiveIn, KeyedBy, UniqueIds, KeysAllocated, DraftOfJob, DraftKeys;
    DraftShape(s.intake, d);
    DraftKeysExact(d, d.chunks);
    forall c | c in d.chunks
      ensures c.id !in Live(s, d.scope)
    {
      DraftIsPending(s, d, c);
      if c.id in Live(s, d.scope) { LiveManifest(s.intake.documents, s.chunks, s.texts.manifests, d.scope, c.id); }
    }
    forall key | key in LiveKeys(s, d.scope, d.profile)
      ensures key !in DraftKeys(d, d.chunks)
    {
      var i := KeyedOrigin(s.vectors.manifests, Live(s, d.scope), d.scope, d.profile, key);
      NotADraftKey(s, d, i);
    }
  }

  lemma NotADraftKey(s: Store, d: Draft, i: Uuid)
    requires UniqueKeys(s.vectors.manifests) && DraftStored(s, d)
    requires i in s.vectors.manifests && s.vectors.manifests[i].scope == d.scope && i !in IdsOf(d.chunks)
    ensures s.vectors.manifests[i].annKey !in DraftKeys(d, d.chunks)
  {
    hide DraftOfJob, DraftKeys;
    DraftShape(s.intake, d);
    DraftKeysExact(d, d.chunks);
    forall c | c in d.chunks
      ensures !SameSlot(s.vectors.manifests[i], PendingVector(d, c))
    {
      assert ChunkStored(s, d, c);
    }
    forall o | 0 <= o < |d.chunks|
      ensures s.vectors.manifests[i].annKey != d.firstKey + d.chunks[o].ordinal
    {
      assert d.chunks[o] in d.chunks;
    }
  }

  lemma DraftIsPending(s: Store, d: Draft, c: Chunk)
    requires ManifestsAgree(s.vectors.manifests, s.texts.manifests, s.graphManifests) && DraftStored(s, d)
    requires c in d.chunks
    ensures c.id in s.texts.manifests && s.texts.manifests[c.id] == PendingText(d, c)
    ensures s.graphManifests[c.id] == PendingGraph(d, c)
  {
    assert ChunkStored(s, d, c);
    assert SameManifest(c.id, s.vectors.manifests[c.id], s.texts.manifests[c.id], s.graphManifests[c.id]);
  }

  /** Replacing a vector file by any sound superset of the ready keys keeps the store valid. */
  lemma WriteVectorKeepsValid(s: Store, scope: Scope, profile: Profile, entries: map<nat, string>)
    requires StoreValid(s) && Contains(entries, LiveKeys(s, scope, profile))
    requires forall key :: key in entries ==>
               VectorEntrySound(s.vectors, VectorPath(scope, profile), key, entries[key])
    ensures StoreValid(WriteVectorFile(s, scope, profile, entries))
    ensures VectorFile(WriteVectorFile(s, scope, profile, entries).files, scope, profile) == entries
  {
    hide IntakeValid, RowsMatch, SucceededComplete, ManifestsAgree, ManifestsExact, KeysAllocated, LiveIn, KeyedBy,
         UniqueIds, UniqueKeys, TextExact, RowsOf, GraphFrom, KeysMatch, VectorEntrySound;
    var s' := WriteVectorFile(s, scope, profile, entries);
    assert RecordsValid(s') by { SameRecords(s, s'); }
    forall scope', profile'
      ensures Contains(VectorFile(s'.files, scope', profile'), LiveKeys(s', scope', profile'))
    {
      assert LiveKeys(s', scope', profile') == LiveKeys(s, scope', profile');
      assert Contains(VectorFile(s.files, scope', profile'), LiveKeys(s, scope', profile'));
    }
    assert forall scope' :: Live(s', scope') == Live(s, scope');
    assert forall scope' :: TextExact(s.texts.active, s.files.texts, scope', Live(s, scope'));
  }

  lemma SameRecords(s: Store, s': Store)
    requires RecordsValid(s) && s' == s.(files := s'.files, graph := s'.graph)
    ensures RecordsValid(s')
  {
  }
}
