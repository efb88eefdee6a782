/** The final transaction makes a document visible in all three projections at once. */
module CommitProofs {
  import opened Basics
  import opened GraphProjection
  import opened StoreTypes
  import opened IntakeSpec
  import opened IntakeProofs
  import opened StoreSpec
  import opened PrepareProofs
  import opened PublishProofs

  // ------------------------------------------------- text generations

  /** New directories never disturb a generation that is already in place. */
  lemma WriteTextKeepsValid(s: Store, files': map<TextPath, map<Uuid, string>>)
    requires StoreValid(s)
    requires forall p :: p in s.files.texts && IsActivePath(s.texts.active, p) ==>
               p in files' && files'[p] == s.files.texts[p]
    ensures StoreValid(s.(files := s.files.(texts := files')))
  {
    hide IntakeValid, RowsMatch, SucceededComplete, ManifestsAgree, ManifestsExact, KeysAllocated, LiveIn, KeyedBy,
         UniqueIds, UniqueKeys, RowsOf, GraphFrom, KeysMatch, VectorEntrySound, Contains;
    var s' := s.(files := s.files.(texts := files'));
    assert forall scope, profile :: LiveKeys(s', scope, profile) == LiveKeys(s, scope, profile);
    assert forall scope :: Live(s', scope) == Live(s, scope);
    forall scope
      ensures TextExact(s'.texts.active, files', scope, Live(s', scope))
    {
      assert TextExact(s.texts.active, s.files.texts, scope, Live(s, scope));
      if scope in s.texts.active {
        assert IsActivePath(s.texts.active, Published(scope, s.texts.active[scope].generation));
      }
    }
  }

  /** Cleanup removes only what no active record names. */
  lemma CleanupKeepsValid(s: Store, spared: set<TextPath>)
    requires StoreValid(s)
    ensures StoreValid(CleanupTexts(s, spared))
    ensures forall scope :: scope in s.texts.active ==>
              Published(scope, s.texts.active[scope].generation) in CleanupTexts(s, spared).files.texts
  {
    hide RecordsValid, VectorsPublished, VectorFilesSound, GraphPublished, Live, StoreValid;
    TextsHold(s);
    forall scope | scope in s.texts.active
      ensures Published(scope, s.texts.active[scope].generation) in CleanupTexts(s, spared).files.texts
    {
      assert TextExact(s.texts.active, s.files.texts, scope, Live(s, scope));
    }
    WriteTextKeepsValid(s, CleanupTexts(s, spared).files.texts);
  }

  lemma TextsHold(s: Store)
    requires StoreValid(s)
    ensures UniqueIds(s.chunks)
    ensures forall scope :: TextExact(s.texts.active, s.files.texts, scope, Live(s, scope))
  {
  }

  /** Switching a workspace to a generation of exactly its live chunks keeps the store valid. */
  lemma ActivateKeepsValid(s: Store, scope: Scope, generation: Uuid)
    requires StoreValid(s)
    requires Published(scope, generation) in s.files.texts
             && s.files.texts[Published(scope, generation)] == Live(s, scope)
    ensures StoreValid(s.(texts := s.texts.(active := Activate(s.texts.active, scope, generation))))
  {
    hide IntakeValid, RowsMatch, SucceededComplete, ManifestsAgree, ManifestsExact, KeysAllocated, LiveIn, KeyedBy,
         UniqueIds, UniqueKeys, RowsOf, GraphFrom, KeysMatch, VectorEntrySound, Contains;
    var s' := s.(texts := s.texts.(active := Activate(s.texts.active, scope, generation)));
    assert forall scope', profile :: LiveKeys(s', scope', profile) == LiveKeys(s, scope', profile);
    assert forall scope' :: Live(s', scope') == Live(s, scope');
    assert forall scope' :: TextExact(s.texts.active, s.files.texts, scope', Live(s, scope'));
  }

  // ------------------------------------------------- graph rebuild

  /** Rebuilding a workspace graph from its live chunks changes no row of any workspace. */
  lemma RebuildKeepsValid(s: Store, scope: Scope, chunks: seq<Chunk>)
    requires StoreValid(s) && DistinctIds(chunks)
    requires Live(s, scope).Keys == IdsOf(chunks) && forall c :: c in chunks ==> Live(s, scope)[c.id] == c.content
    ensures StoreValid(s.(graph := Rebuild(s.graph, scope, chunks)))
    ensures forall other :: RowsOf(Rebuild(s.graph, scope, chunks), other) == RowsOf(s.graph, other)
  {
    hide IntakeValid, RowsMatch, SucceededComplete, ManifestsAgree, ManifestsExact, KeysAllocated, LiveIn, KeyedBy,
         UniqueIds, UniqueKeys, RowsOf, GraphFrom, KeysMatch, VectorEntrySound, Contains, TextExact, Rebuild;
    var s' := s.(graph := Rebuild(s.graph, scope, chunks));
    RebuildIsNoOp(s.graph, scope, chunks, Live(s, scope));
    assert forall scope', profile :: LiveKeys(s', scope', profile) == LiveKeys(s, scope', profile);
    assert forall scope' :: Live(s', scope') == Live(s, scope');
  }

  // ------------------------------------------------- commit

  /** Both published files hold what is already live plus the draft. */
  ghost predicate DraftPublished(s: Store, d: Draft, generation: Uuid)
    requires RecordsValid(s)
  {
    && VectorFile(s.files, d.scope, d.profile) == LiveKeys(s, d.scope, d.profile) + DraftKeys(d, d.chunks)
    && Published(d.scope, generation) in s.files.texts
    && s.files.texts[Published(d.scope, generation)] == Live(s, d.scope) + DraftTexts(d.chunks)
  }

  lemma DraftRow(s: Store, d: Draft, k: ChunkKey)
    requires RecordsValid(s) && DraftStored(s, d) && k in s.chunks
    ensures k.document == d.documentId <==> s.chunks[k].id in IdsOf(d.chunks)
    ensures k.document == d.documentId ==> s.chunks[k] in d.chunks
  {
    hide IntakeValid, SucceededComplete, ManifestsAgree, ManifestsExact, KeysAllocated, UniqueKeys, ChunksOf;
    assert RowMatches(s.intake.documents, s.intake.payloads, k, s.chunks[k]);
    if k.document == d.documentId {
      var c := d.chunks[k.ordinal];
      assert c in d.chunks && ChunkStored(s, d, c);
    }
    if s.chunks[k].id in IdsOf(d.chunks) {
      var c :| c in d.chunks && c.id == s.chunks[k].id;
      assert ChunkStored(s, d, c);
    }
  }

  lemma DraftHasRow(s: Store, d: Draft, c: Chunk)
    requires DraftStored(s, d) && c in d.chunks
    ensures ChunkKey(d.documentId, c.ordinal) in s.chunks && s.chunks[ChunkKey(d.documentId, c.ordinal)] == c
    ensures HasRow(s.chunks, c.id)
  {
    assert ChunkStored(s, d, c);
  }

  lemma CommitLinks(s: Store, d: Draft, now: nat)
    requires RecordsValid(s) && DraftStored(s, d)
    ensures s.intake.jobs[d.jobId].documentId in s.intake.documents
    ensures var t, t' := s.intake, Succeed(s.intake, d.jobId, |d.chunks|, now);
      && IntakeValid(t') && Extends(t, t')
      && t'.documents ==
        t.documents[d.documentId := t.documents[d.documentId].(status := Succeeded, chunkCount := |d.chunks|)]
  {
    hide IntakeValid, RowsMatch, SucceededComplete, ManifestsAgree, ManifestsExact, KeysAllocated, UniqueKeys,
         UniqueIds, ChunksOf;
    SucceedKeepsValid(s.intake, d.jobId, |d.chunks|, now);
  }

  lemma CommitRows(s: Store, d: Draft, now: nat)
    requires RecordsValid(s) && DraftStored(s, d)
    requires s.intake.jobs[d.jobId].documentId in s.intake.documents
    ensures var t' := Succeed(s.intake, d.jobId, |d.chunks|, now);
      RowsMatch(t'.documents, t'.payloads, s.chunks) && SucceededComplete(t'.documents, t'.payloads, s.chunks)
  {
    hide IntakeValid, ManifestsAgree, ManifestsExact, KeysAllocated, UniqueKeys, UniqueIds, ChunksOf, Numbered,
         DistinctIds;
    var t, t' := s.intake, Succeed(s.intake, d.jobId, |d.chunks|, now);
    CommitLinks(s, d, now);
    forall k | k in s.chunks
      ensures RowMatches(t'.documents, t'.payloads, k, s.chunks[k])
    {
      assert RowMatches(t.documents, t.payloads, k, s.chunks[k]);
    }
    forall e | e in t'.documents && t'.documents[e].status == Succeeded
      ensures RowsComplete(t'.documents, t'.payloads, s.chunks, e)
    {
      if e == d.documentId {
        DraftRowsPresent(s, d);
      } else {
        assert RowsComplete(t.documents, t.payloads, s.chunks, e);
      }
    }
  }

  lemma DraftRowsPresent(s: Store, d: Draft)
    requires DraftStored(s, d)
    ensures forall o :: 0 <= o < |d.chunks| ==> ChunkKey(d.documentId, o) in s.chunks
  {
    hide ChunksOf;
    forall o | 0 <= o < |d.chunks|
      ensures ChunkKey(d.documentId, o) in s.chunks
    {
      assert d.chunks[o] in d.chunks && ChunkStored(s, d, d.chunks[o]);
    }
  }

  lemma CommitAgree(v: map<Uuid, VectorManifest>, t: map<Uuid, TextManifest>, g: map<Uuid, GraphManifest>,
                    ids: set<Uuid>)
    requires ManifestsAgree(v, t, g)
    ensures ManifestsAgree(ReadyVectors(v, ids), ReadyTexts(t, ids), ReadyGraphs(g, ids))
  {
    forall i | i in t
      ensures SameManifest(i, ReadyVectors(v, ids)[i], ReadyTexts(t, ids)[i], ReadyGraphs(g, ids)[i])
    {
      assert SameManifest(i, v[i], t[i], g[i]);
    }
  }

  lemma CommitExact(s: Store, d: Draft, now: nat)
    requires RecordsValid(s) && DraftStored(s, d)
    requires s.intake.jobs[d.jobId].documentId in s.intake.documents
    ensures ManifestsExact(Succeed(s.intake, d.jobId, |d.chunks|, now).documents, s.chunks,
                           ReadyTexts(s.texts.manifests, IdsOf(d.chunks)))
  {
    hide IntakeValid, RowsMatch, SucceededComplete, ManifestsAgree, KeysAllocated, UniqueKeys, UniqueIds, ChunksOf,
         DraftOfJob, IdsOf, Succeed;
    DraftDocument(s.intake, d);
    var documents' := Succeed(s.intake, d.jobId, |d.chunks|, now).documents;
    var m, ids := s.texts.manifests, IdsOf(d.chunks);
    CommitLinks(s, d, now);
    forall k | k in s.chunks
      ensures RowManifested(documents', ReadyTexts(m, ids), k, s.chunks[k])
    {
      assert RowManifested(s.intake.documents, m, k, s.chunks[k]);
      DraftRow(s, d, k);
    }
    forall i | i in m && ReadyTexts(m, ids)[i].state == Ready
      ensures HasRow(s.chunks, i)
    {
      if i in ids { DraftIdHasRow(s, d, i); }
    }
  }

  lemma DraftDocument(t: Intake, d: Draft)
    requires DraftOfJob(t, d)
    ensures d.documentId in t.documents && t.documents[d.documentId].scope == d.scope
    ensures t.documents[d.documentId].status == Processing && d.jobId in t.jobs
    ensures t.jobs[d.jobId].documentId == d.documentId
  {
  }

  lemma DraftIdHasRow(s: Store, d: Draft, i: Uuid)
    requires DraftStored(s, d) && i in IdsOf(d.chunks)
    ensures HasRow(s.chunks, i)
  {
    hide DraftOfJob;
    var c :| c in d.chunks && c.id == i;
    DraftHasRow(s, d, c);
  }

  lemma CommitKeys(v: Vectors, ids: set<Uuid>)
    requires KeysAllocated(v)
    ensures KeysAllocated(v.(manifests := ReadyVectors(v.manifests, ids)))
  {
    var m' := ReadyVectors(v.manifests, ids);
    assert forall i :: i in v.manifests ==> KeyAllocated(v.nextKeys, v.chunks, i, v.manifests[i]);
    assert forall slot :: slot in v.chunks ==> SlotBacked(v.manifests, slot, v.chunks[slot]);
  }

  /** Everything live before stays live, and the draft's own chunks join it. */
  lemma CommitLive(s: Store, d: Draft, now: nat, scope: Scope)
    requires RecordsValid(s) && DraftStored(s, d)
    requires s.intake.jobs[d.jobId].documentId in s.intake.documents
    ensures LiveIn(Succeed(s.intake, d.jobId, |d.chunks|, now).documents, s.chunks, scope)
         == if scope == d.scope then Live(s, scope) + DraftTexts(d.chunks) else Live(s, scope)
  {
    hide IntakeValid, RowsMatch, SucceededComplete, ManifestsAgree, ManifestsExact, KeysAllocated, UniqueKeys,
         UniqueIds, DraftOfJob, LiveIn, DraftTexts, Succeed, IdsOf;
    DraftDocument(s.intake, d);
    var documents' := Succeed(s.intake, d.jobId, |d.chunks|, now).documents;
    CommitLinks(s, d, now);
    DraftShape(s.intake, d);
    DraftTextsExact(d.chunks);
    if scope == d.scope {
      forall i | i in LiveIn(documents', s.chunks, scope)
        ensures i in Live(s, scope) + DraftTexts(d.chunks)
        ensures (Live(s, scope) + DraftTexts(d.chunks))[i] == LiveIn(documents', s.chunks, scope)[i]
      {
        LiveAfter(s, d, documents', scope, i);
      }
      forall i | i in Live(s, scope) + DraftTexts(d.chunks)
        ensures i in LiveIn(documents', s.chunks, scope)
      {
        LiveBefore(s, d, documents', i);
      }
    } else {
      LiveUnchanged(s.intake.documents, s.chunks, documents', s.chunks, scope);
    }
  }

  lemma LiveAfter(s: Store, d: Draft, documents': map<Uuid, Document>, scope: Scope, i: Uuid)
    requires RecordsValid(s) && DraftStored(s, d) && d.documentId in s.intake.documents && scope == d.scope
    requires documents' == s.intake.documents[d.documentId :=
               s.intake.documents[d.documentId].(status := Succeeded, chunkCount := |d.chunks|)]
    requires i in LiveIn(documents', s.chunks, scope)
    ensures i in Live(s, scope) + DraftTexts(d.chunks)
    ensures (Live(s, scope) + DraftTexts(d.chunks))[i] == LiveIn(documents', s.chunks, scope)[i]
  {
    hide IntakeValid, RowsMatch, SucceededComplete, ManifestsAgree, ManifestsExact, KeysAllocated, UniqueKeys,
         UniqueIds, DraftOfJob, LiveIn, DraftTexts, IdsOf;
    DraftShape(s.intake, d);
    DraftTextsExact(d.chunks);
    var k := LiveOrigin(documents', s.chunks, scope, i);
    DraftRow(s, d, k);
    if k.document != d.documentId {
      LiveEntry(s.intake.documents, s.chunks, scope, k);
    }
  }

  lemma LiveBefore(s: Store, d: Draft, documents': map<Uuid, Document>, i: Uuid)
    requires RecordsValid(s) && DraftStored(s, d) && d.documentId in s.intake.documents
    requires s.intake.documents[d.documentId].scope == d.scope
    requires documents' == s.intake.documents[d.documentId :=
               s.intake.documents[d.documentId].(status := Succeeded, chunkCount := |d.chunks|)]
    requires i in Live(s, d.scope) + DraftTexts(d.chunks)
    ensures i in LiveIn(documents', s.chunks, d.scope)
  {
    hide IntakeValid, RowsMatch, SucceededComplete, ManifestsAgree, ManifestsExact, KeysAllocated, UniqueKeys,
         UniqueIds, DraftOfJob, LiveIn, DraftTexts;
    DraftShape(s.intake, d);
    DraftTextsExact(d.chunks);
    if i in DraftTexts(d.chunks) {
      var c :| c in d.chunks && c.id == i;
      DraftHasRow(s, d, c);
      LiveEntry(documents', s.chunks, d.scope, ChunkKey(d.documentId, c.ordinal));
    } else {
      var k := LiveOrigin(s.intake.documents, s.chunks, d.scope, i);
      LiveEntry(documents', s.chunks, d.scope, k);
    }
  }

  lemma CommitRecords(s: Store, d: Draft, generation: Uuid, now: nat)
    requires RecordsValid(s) && DraftStored(s, d)
    ensures s.intake.jobs[d.jobId].documentId in s.intake.documents
    ensures RecordsValid(Commit(s, d, generation, now))
    ensures forall scope :: Live(Commit(s, d, generation, now), scope) ==
              if scope == d.scope then Live(s, scope) + DraftTexts(d.chunks) else Live(s, scope)
  {
    hide IntakeValid, RowsMatch, SucceededComplete, ManifestsAgree, ManifestsExact, KeysAllocated, UniqueKeys,
         UniqueIds, DraftOfJob, LiveIn, DraftTexts, Succeed, IdsOf, Materialize;
    DraftDocument(s.intake, d);
    CommitLinks(s, d, now);
    CommitRows(s, d, now);
    CommitAgree(s.vectors.manifests, s.texts.manifests, s.graphManifests, IdsOf(d.chunks));
    CommitExact(s, d, now);
    CommitKeys(s.vectors, IdsOf(d.chunks));
    AllocatedKeysUnique(Commit(s, d, generation, now).vectors);
    forall scope
      ensures LiveIn(Succeed(s.intake, d.jobId, |d.chunks|, now).documents, s.chunks, scope)
           == if scope == d.scope then Live(s, scope) + DraftTexts(d.chunks) else Live(s, scope)
    {
      CommitLive(s, d, now, scope);
    }
  }

  /** The ready keys after the commit are all in the files that were published before it. */
  lemma CommitVectors(s: Store, d: Draft, generation: Uuid, now: nat, scope: Scope, profile: Profile)
    requires StoreValid(s) && DraftStored(s, d) && DraftPublished(s, d, generation)
    requires s.intake.jobs[d.jobId].documentId in s.intake.documents
    requires RecordsValid(Commit(s, d, generation, now))
    requires forall other :: Live(Commit(s, d, generation, now), other) ==
               if other == d.scope then Live(s, other) + DraftTexts(d.chunks) else Live(s, other)
    ensures Contains(VectorFile(s.files, scope, profile), LiveKeys(Commit(s, d, generation, now), scope, profile))
  {
    hide IntakeValid, RowsMatch, SucceededComplete, ManifestsAgree, ManifestsExact, KeysAllocated, UniqueKeys,
         UniqueIds, DraftOfJob, LiveIn, DraftTexts, DraftKeys, KeyedBy, TextExact, RowsOf, GraphFrom, KeysMatch,
         Succeed, Materialize, VectorEntrySound, IdsOf;
    DraftDocument(s.intake, d);
    var s' := Commit(s, d, generation, now);
    var file := VectorFile(s.files, scope, profile);
    DraftShape(s.intake, d);
    DraftTextsExact(d.chunks);
    DraftKeysFresh(s, d);
    assert Contains(file, LiveKeys(s, scope, profile));
    forall key | key in LiveKeys(s', scope, profile)
      ensures key in file && file[key] == LiveKeys(s', scope, profile)[key]
    {
      var i := KeyedOrigin(s'.vectors.manifests, Live(s', scope), scope, profile, key);
      if scope == d.scope && i in DraftTexts(d.chunks) {
        DraftKeyPublished(s, d, i);
      } else {
        KeyedEntry(s.vectors.manifests, Live(s, scope), scope, profile, i);
      }
    }
  }

  lemma DraftKeyPublished(s: Store, d: Draft, i: Uuid)
    requires DraftStored(s, d) && i in DraftTexts(d.chunks)
    ensures i in s.vectors.manifests && s.vectors.manifests[i].profile == d.profile
    ensures s.vectors.manifests[i].annKey in DraftKeys(d, d.chunks)
    ensures DraftKeys(d, d.chunks)[s.vectors.manifests[i].annKey] == DraftTexts(d.chunks)[i]
  {
    hide DraftOfJob, DraftTexts, DraftKeys, DistinctIds;
    DraftShape(s.intake, d);
    DraftTextsExact(d.chunks);
    var o := DraftOrdinal(d.chunks, i);
    assert d.chunks[o] in d.chunks && ChunkStored(s, d, d.chunks[o]);
    DraftKeyOf(d, o);
  }

  lemma DraftOrdinal(cs: seq<Chunk>, i: Uuid) returns (o: nat)
    requires i in IdsOf(cs)
    ensures o < |cs| && cs[o].id == i
  {
    var c :| c in cs && c.id == i;
    o :| 0 <= o < |cs| && cs[o] == c;
  }

  lemma DraftKeyOf(d: Draft, o: nat)
    requires Numbered(d.documentId, d.chunks) && o < |d.chunks|
    ensures var key := d.firstKey + d.chunks[o].ordinal;
      key in DraftKeys(d, d.chunks) && DraftKeys(d, d.chunks)[key] == d.chunks[o].content
  {
    hide DraftKeys;
    DraftKeysExact(d, d.chunks);
  }

  lemma CommitFilesSound(v: Vectors, files: map<VectorPath, map<nat, string>>, ids: set<Uuid>)
    requires VectorFilesSound(v, files)
    ensures VectorFilesSound(v.(manifests := ReadyVectors(v.manifests, ids)), files)
  {
    forall path, key | path in files && key in files[path]
      ensures VectorEntrySound(v.(manifests := ReadyVectors(v.manifests, ids)), path, key, files[path][key])
    {
      assert VectorEntrySound(v, path, key, files[path][key]);
    }
  }

  /** The graph of a draft's workspace, with its own chunks added. */
  lemma DraftJoinsGraph(g: Graph, scope: Scope, chunks: seq<Chunk>, live: map<Uuid, string>)
    requires KeysMatch(g) && RowsOf(g, scope) == GraphFrom(scope, live)
    requires DistinctIds(chunks) && forall i :: i in IdsOf(chunks) ==> i !in live
    ensures var g' := Materialize(g, scope, chunks);
      && KeysMatch(g') && RowsOf(g', scope) == GraphFrom(scope, live + DraftTexts(chunks)) && OthersSame(g, g', scope)
  {
    hide RowsOf, GraphFrom, KeysMatch, Materialize, DraftTexts, DistinctIds, OthersSame;
    DraftTextsExact(chunks);
    assert forall c :: c in chunks ==> c.id in IdsOf(chunks);
    MaterializeRows(g, scope, chunks, live, live + DraftTexts(chunks));
  }

  lemma CommitGraph(s: Store, d: Draft)
    requires UniqueIds(s.chunks) && RecordsValid(s) && GraphPublished(s) && DraftStored(s, d)
    ensures KeysMatch(Materialize(s.graph, d.scope, d.chunks))
    ensures forall scope :: RowsOf(Materialize(s.graph, d.scope, d.chunks), scope) == GraphFrom(scope,
              if scope == d.scope then Live(s, scope) + DraftTexts(d.chunks) else Live(s, scope))
  {
    hide RecordsValid, UniqueIds, DraftOfJob, LiveIn, DraftTexts, RowsOf, GraphFrom, KeysMatch, Materialize, IdsOf,
         DistinctIds, ChunkStored;
    DraftShape(s.intake, d);
    DraftKeysFresh(s, d);
    DraftJoinsGraph(s.graph, d.scope, d.chunks, Live(s, d.scope));
  }

  /** One transaction turns a published draft into live text, in all three projections. */
  lemma CommitKeepsValid(s: Store, d: Draft, generation: Uuid, now: nat)
    requires StoreValid(s) && DraftStored(s, d) && DraftPublished(s, d, generation)
    ensures s.intake.jobs[d.jobId].documentId in s.intake.documents
    ensures StoreValid(Commit(s, d, generation, now))
    ensures forall scope :: Live(Commit(s, d, generation, now), scope) ==
              if scope == d.scope then Live(s, scope) + DraftTexts(d.chunks) else Live(s, scope)
    ensures Extends(s.intake, Commit(s, d, generation, now).intake)
  {
    hide IntakeValid, RowsMatch, SucceededComplete, ManifestsAgree, ManifestsExact, KeysAllocated, UniqueKeys,
         UniqueIds, DraftOfJob, LiveIn, DraftTexts, DraftKeys, KeyedBy, RowsOf, GraphFrom, KeysMatch, Succeed,
         Materialize, VectorFilesSound, Extends, Contains;
    DraftDocument(s.intake, d);
    CommitRecords(s, d, generation, now);
    CommitLinks(s, d, now);
    CommitFilesSound(s.vectors, s.files.vectors, IdsOf(d.chunks));
    CommitGraph(s, d);
    var s' := Commit(s, d, generation, now);
    forall scope, profile
      ensures Contains(VectorFile(s'.files, scope, profile), LiveKeys(s', scope, profile))
    {
      CommitVectors(s, d, generation, now, scope, profile);
    }
    forall scope
      ensures TextExact(s'.texts.active, s'.files.texts, scope, Live(s', scope))
    {
      assert TextExact(s.texts.active, s.files.texts, scope, Live(s, scope));
    }
  }
}
