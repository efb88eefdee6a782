/** What every run of the store promises, in terms of documents and their text. */
module StoreTheorems {
  import opened Basics
  import opened GraphProjection
  import opened StoreTypes
  import opened IntakeSpec
  import opened IntakeProofs
  import opened StoreSpec
  import opened PrepareProofs
  import opened PublishProofs
  import opened CommitProofs
  import opened StoreRuns
  import Chunker

  /** The state after a run that starts with an empty data directory. */
  ghost function Reached(ops: seq<Op>): (s: Store)
    ensures StoreValid(s)
  {
    EmptyIsValid();
    Run(EMPTY_STORE, ops)
  }

  /**
   * Job records. After any run, a job and its document name each other and agree on status; a lease is
   * set exactly while processing, and a next attempt exactly while queued or waiting for a retry.
   */
  lemma JobsAreConsistent(ops: seq<Op>, j: Uuid)
    requires j in Reached(ops).intake.jobs
    ensures var t := Reached(ops).intake;
      var job := t.jobs[j];
      && job.documentId in t.documents && t.documents[job.documentId].jobId == j
      && t.documents[job.documentId].status == job.status && t.documents[job.documentId].scope == job.scope
      && (job.leaseExpiresAt.Some? <==> job.status == Processing)
      && (job.nextAttemptAt.Some? <==> job.status == Queued || job.status == RetryWait)
      && j in t.payloads && job.inputSha == Sha256(t.payloads[j])
  {
    hide RowsMatch, SucceededComplete, ManifestsAgree, ManifestsExact, KeysAllocated, UniqueKeys, UniqueIds,
         VectorsPublished, TextsPublished, GraphPublished, VectorFilesSound, DedupExact, IdempotencyExact, Reached,
         Chunker.IsBlank;
    var t := Reached(ops).intake;
    assert JobLinked(t.documents, t.jobs[j], j) && JobWellFormed(t.jobs[j], t.payloads[j]);
  }

  /** Index entries always resolve to a job with its document and payload, and are the entries of that job. */
  lemma IndexesResolve(ops: seq<Op>, key: DedupKey, idempotency: IdempotencyKey)
    ensures var t := Reached(ops).intake;
      && (key in t.dedup ==>
            && t.dedup[key] in t.jobs && t.dedup[key] in t.payloads && DedupKeyOfJob(t.jobs[t.dedup[key]]) == key
            && t.jobs[t.dedup[key]].documentId in t.documents)
      && (idempotency in t.idempotency ==>
            && t.idempotency[idempotency] in t.jobs && t.idempotency[idempotency] in t.payloads
            && t.jobs[t.idempotency[idempotency]].documentId in t.documents)
  {
    hide RowsMatch, SucceededComplete, ManifestsAgree, ManifestsExact, KeysAllocated, UniqueKeys, UniqueIds,
         VectorsPublished, TextsPublished, GraphPublished, VectorFilesSound, Reached, JobWellFormed;
    var t := Reached(ops).intake;
    assert forall j :: j in t.jobs ==> JobLinked(t.documents, t.jobs[j], j);
  }

  /** Whatever earlier attempts wrote, the rows of a succeeded document are exactly the chunks of its payload. */
  lemma SucceededRowsAreChunks(ops: seq<Op>, d: Uuid)
    requires d in Reached(ops).intake.documents && Reached(ops).intake.documents[d].status == Succeeded
    ensures var s := Reached(ops);
      var document := s.intake.documents[d];
      && document.jobId in s.intake.payloads
      && var texts := ChunksOf(s.intake.payloads[document.jobId]);
         && document.chunkCount == |texts|
         && (forall o: nat :: ChunkKey(d, o) in s.chunks <==> o < |texts|)
         && (forall o: nat :: o < |texts| ==> s.chunks[ChunkKey(d, o)].content == texts[o])
  {
    hide IntakeValid, ManifestsAgree, ManifestsExact, KeysAllocated, UniqueKeys, UniqueIds, VectorsPublished,
         TextsPublished, GraphPublished, VectorFilesSound, Reached, ChunksOf;
    var s := Reached(ops);
    assert RowsComplete(s.intake.documents, s.intake.payloads, s.chunks, d);
    assert forall k :: k in s.chunks ==> RowMatches(s.intake.documents, s.intake.payloads, k, s.chunks[k]);
  }

  /** Chunk `o` of succeeded document `d`. */
  ghost predicate IsChunkOf(s: Store, scope: Scope, d: Uuid, o: nat, text: string) {
    && IsLive(s.intake.documents, scope, d)
    && s.intake.documents[d].jobId in s.intake.payloads
    && o < |ChunksOf(s.intake.payloads[s.intake.documents[d].jobId])|
    && text == ChunksOf(s.intake.payloads[s.intake.documents[d].jobId])[o]
  }

  /** The chunk id under which a chunk of a succeeded document is currently stored. */
  ghost predicate StoredAs(s: Store, d: Uuid, o: nat, i: Uuid) {
    ChunkKey(d, o) in s.chunks && s.chunks[ChunkKey(d, o)].id == i
  }

  /**
   * The live texts of a workspace are exactly the chunks of the payloads of its succeeded documents,
   * each under one id, whatever earlier attempts wrote.
   */
  lemma LiveIsPayloads(s: Store, scope: Scope)
    requires StoreValid(s)
    ensures UniqueIds(s.chunks)
    ensures forall d, o, text :: IsChunkOf(s, scope, d, o, text) ==>
              exists i :: StoredAs(s, d, o, i) && i in Live(s, scope) && Live(s, scope)[i] == text
    ensures forall i :: i in Live(s, scope) ==>
              exists d, o :: StoredAs(s, d, o, i) && IsChunkOf(s, scope, d, o, Live(s, scope)[i])
  {
    hide ChunksOf, LiveIn, IntakeValid, ManifestsAgree, ManifestsExact, KeysAllocated, UniqueKeys, UniqueIds,
         VectorsPublished, TextsPublished, GraphPublished, VectorFilesSound;
    forall d, o, text | IsChunkOf(s, scope, d, o, text)
      ensures exists i :: StoredAs(s, d, o, i) && i in Live(s, scope) && Live(s, scope)[i] == text
    {
      var k := ChunkKey(d, o);
      assert RowsComplete(s.intake.documents, s.intake.payloads, s.chunks, d);
      assert RowMatches(s.intake.documents, s.intake.payloads, k, s.chunks[k]);
      LiveEntry(s.intake.documents, s.chunks, scope, k);
      assert StoredAs(s, d, o, s.chunks[k].id);
    }
    forall i | i in Live(s, scope)
      ensures exists d, o :: StoredAs(s, d, o, i) && IsChunkOf(s, scope, d, o, Live(s, scope)[i])
    {
      var k := LiveOrigin(s.intake.documents, s.chunks, scope, i);
      assert RowMatches(s.intake.documents, s.intake.payloads, k, s.chunks[k]);
      assert StoredAs(s, k.document, k.ordinal, i) && IsChunkOf(s, scope, k.document, k.ordinal, s.chunks[k].content);
    }
  }

  /**
   * Text refinement. After any run, the generation a workspace searches is on disk and indexes
   * exactly its live texts; a workspace without one has no live text.
   */
  lemma TextRefinement(ops: seq<Op>, scope: Scope)
    ensures var s := Reached(ops);
      && UniqueIds(s.chunks)
      && (if scope in s.texts.active then
            var path := Published(scope, s.texts.active[scope].generation);
            path in s.files.texts && s.files.texts[path] == Live(s, scope)
          else Live(s, scope) == map[])
  {
    hide RecordsValid, VectorsPublished, GraphPublished, VectorFilesSound, Live, Reached;
    TextsHold(Reached(ops));
    assert TextExact(Reached(ops).texts.active, Reached(ops).files.texts, scope, Live(Reached(ops), scope));
  }

  /** An ANN hit that survives the manifest checks of retrieval. */
  predicate VectorHit(s: Store, scope: Scope, profile: Profile, key: nat, i: Uuid) {
    && key in VectorFile(s.files, scope, profile)
    && i in s.vectors.manifests
    && s.vectors.manifests[i].scope == scope && s.vectors.manifests[i].annKey == key
    && s.vectors.manifests[i].state == Ready && s.vectors.manifests[i].profile == profile
  }

  /**
   * Vector refinement. After any run, a live chunk embedded under a profile is found in that
   * profile's file with its own text; and a hit that passes the manifest checks is a live chunk, so
   * leftovers of crashed or failed attempts are never retrievable.
   */
  lemma VectorRefinement(ops: seq<Op>, scope: Scope, profile: Profile)
    ensures var s := Reached(ops);
      && UniqueIds(s.chunks)
      && (forall i :: i in Live(s, scope) ==>
            && i in s.vectors.manifests
            && var key := s.vectors.manifests[i].annKey;
               (s.vectors.manifests[i].profile == profile ==>
                 && VectorHit(s, scope, profile, key, i)
                 && VectorFile(s.files, scope, profile)[key] == Live(s, scope)[i]))
      && (forall i, key :: VectorHit(s, scope, profile, key, i) ==>
            && i in Live(s, scope)
            && VectorFile(s.files, scope, profile)[key] == Live(s, scope)[i])
  {
    hide IntakeValid, RowsMatch, SucceededComplete, KeysAllocated, UniqueIds, UniqueKeys, KeyedBy, LiveIn,
         TextsPublished, GraphPublished, VectorFilesSound, Reached, ManifestsExact;
    var s := Reached(ops);
    assert Contains(VectorFile(s.files, scope, profile), LiveKeys(s, scope, profile));
    forall i | i in Live(s, scope)
      ensures i in s.vectors.manifests
      ensures s.vectors.manifests[i].profile == profile ==>
                && VectorHit(s, scope, profile, s.vectors.manifests[i].annKey, i)
                && VectorFile(s.files, scope, profile)[s.vectors.manifests[i].annKey] == Live(s, scope)[i]
    {
      LiveManifest(s.intake.documents, s.chunks, s.texts.manifests, scope, i);
      assert SameManifest(i, s.vectors.manifests[i], s.texts.manifests[i], s.graphManifests[i]);
      if s.vectors.manifests[i].profile == profile {
        KeyedEntry(s.vectors.manifests, Live(s, scope), scope, profile, i);
      }
    }
    forall i, key | VectorHit(s, scope, profile, key, i)
      ensures i in Live(s, scope) && VectorFile(s.files, scope, profile)[key] == Live(s, scope)[i]
    {
      assert SameManifest(i, s.vectors.manifests[i], s.texts.manifests[i], s.graphManifests[i]);
      ReadyIsLive(s.intake.documents, s.chunks, s.texts.manifests, i);
      KeyedEntry(s.vectors.manifests, Live(s, scope), scope, profile, i);
    }
  }

  /** Incremental equals rebuild: after any run the graph tables are the graph of the live texts. */
  lemma GraphRefinement(ops: seq<Op>, scope: Scope, chunks: seq<Chunk>)
    requires UniqueIds(Reached(ops).chunks) && ListsLive(Reached(ops), scope, chunks)
    ensures RowsOf(Reached(ops).graph, scope) == GraphFrom(scope, Live(Reached(ops), scope))
    ensures forall other ::
              RowsOf(Rebuild(Reached(ops).graph, scope, chunks), other) == RowsOf(Reached(ops).graph, other)
  {
    hide RecordsValid, VectorsPublished, TextsPublished, VectorFilesSound, Live, Reached, RowsOf, GraphFrom, Rebuild;
    RebuildKeepsValid(Reached(ops), scope, chunks);
  }

  /**
   * Key allocation. In every reachable state the keys from the counter on are unused, no two manifests
   * share a key and the slot table is the exact inverse of the manifests' keys: neither the "already
   * mapped" nor the "duplicate ANN key" check can fail.
   */
  lemma AllocationNeverCollides(s: Store, scope: Scope, key: nat)
    requires StoreValid(s) && key >= NextKey(s.vectors.nextKeys, scope)
    ensures AnnSlot(scope, key) !in s.vectors.chunks
    ensures forall i :: i in s.vectors.manifests && s.vectors.manifests[i].scope == scope ==>
              s.vectors.manifests[i].annKey < key
    ensures UniqueKeys(s.vectors.manifests)
    ensures forall slot, i :: (slot in s.vectors.chunks && s.vectors.chunks[slot] == i) <==>
              (i in s.vectors.manifests && slot == AnnSlot(s.vectors.manifests[i].scope, s.vectors.manifests[i].annKey))
  {
    hide IntakeValid, RowsMatch, SucceededComplete, ManifestsAgree, ManifestsExact, UniqueIds, VectorsPublished,
         TextsPublished, GraphPublished, VectorFilesSound;
    var v := s.vectors;
    assert forall i :: i in v.manifests ==> KeyAllocated(v.nextKeys, v.chunks, i, v.manifests[i]);
    assert forall slot :: slot in v.chunks ==> SlotBacked(v.manifests, slot, v.chunks[slot]);
  }

  /** The boot sequence: leases are returned, then each projection of each workspace is rebuilt. */
  ghost predicate IsBoot(profile: Profile, ops: seq<Op>, scope: Scope) {
    && |ops| > 0 && ops[0].RecoverOp?
    && (exists k :: 0 < k < |ops| && ops[k] == RebuildVectorOp(scope, profile))
    && AllReconcile(ops[1..])
  }

  ghost predicate FileIsExact(s: Store, scope: Scope, profile: Profile)
    requires StoreValid(s)
  {
    VectorFile(s.files, scope, profile) == LiveKeys(s, scope, profile)
  }

  predicate IsReconcile(op: Op) {
    op.RebuildVectorOp? || op.RebuildTextOp? || op.RebuildGraphOp? || op.CleanupOp?
  }

  /** What a vector file and its ready keys depend on. */
  lemma ExactDependsOn(s: Store, s': Store, scope: Scope, profile: Profile)
    requires StoreValid(s) && StoreValid(s') && s'.intake == s.intake && s'.chunks == s.chunks
    requires s'.vectors == s.vectors
    ensures LiveKeys(s', scope, profile) == LiveKeys(s, scope, profile)
  {
    hide IntakeValid, RowsMatch, SucceededComplete, ManifestsAgree, ManifestsExact, KeysAllocated, VectorsPublished,
         TextsPublished, GraphPublished, VectorFilesSound, LiveIn, KeyedBy, UniqueIds, UniqueKeys;
  }

  lemma RebuildTextFrame(s: Store, scope: Scope, generation: Uuid, steps: nat, torn: map<Uuid, string>,
                         spared: set<TextPath>)
    requires UniqueIds(s.chunks)
    ensures var s' := RebuildText(s, scope, generation, steps, torn, spared);
      && s'.vectors == s.vectors && s'.chunks == s.chunks && s'.files.vectors == s.files.vectors
      && s'.intake == s.intake && s'.graphManifests == s.graphManifests && s'.graph == s.graph
      && s'.texts.manifests == s.texts.manifests
  {
    hide UniqueIds, LiveIn;
  }

  /** A rebuild publishes no generation but its own. */
  lemma RebuildTextPaths(s: Store, scope: Scope, generation: Uuid, steps: nat, torn: map<Uuid, string>,
                         spared: set<TextPath>)
    requires UniqueIds(s.chunks)
    ensures forall p :: p in RebuildText(s, scope, generation, steps, torn, spared).files.texts ==>
              p in s.files.texts || p.Temporary? || p == Published(scope, generation)
  {
    hide UniqueIds, LiveIn, IsActivePath, Activate;
  }

  lemma ReconcileFrame(s: Store, op: Op)
    requires StoreValid(s) && IsReconcile(op)
    ensures var s' := Apply(s, op);
      && s'.vectors == s.vectors && s'.chunks == s.chunks && s'.intake == s.intake
      && s'.files.vectors == if op.RebuildVectorOp? then
           s.files.vectors[VectorPath(op.scope, op.profile) := LiveKeys(s, op.scope, op.profile)] else s.files.vectors
  {
    hide RecordsValid, VectorsPublished, TextsPublished, GraphPublished, VectorFilesSound, LiveIn, KeyedBy, UniqueIds,
         UniqueKeys, ListsLive, Rebuild, RebuildText;
    ValidRecords(s);
    RecordsAreUnique(s);
    if op.RebuildTextOp? {
      RebuildTextFrame(s, op.scope, op.generation, op.steps, op.torn, op.spared);
    }
  }

  /** Reconciliation steps never dirty a vector file again. */
  lemma ReconcileKeepsExact(s: Store, op: Op, scope: Scope, profile: Profile)
    requires StoreValid(s) && IsReconcile(op)
    requires FileIsExact(s, scope, profile) || op == RebuildVectorOp(scope, profile)
    ensures StoreValid(Apply(s, op)) && FileIsExact(Apply(s, op), scope, profile)
    ensures Apply(s, op).intake == s.intake
  {
    hide StoreValid, Apply, LiveKeys;
    ApplyKeepsValid(s, op);
    ReconcileFrame(s, op);
    ExactDependsOn(s, Apply(s, op), scope, profile);
  }

  ghost predicate AllReconcile(ops: seq<Op>) {
    forall op :: op in ops ==> IsReconcile(op)
  }

  lemma TailOf(ops: seq<Op>, op: Op)
    requires ops != [] && AllReconcile(ops)
    ensures IsReconcile(ops[0]) && AllReconcile(ops[1..])
    ensures op in ops ==> op == ops[0] || op in ops[1..]
  {
    assert ops == [ops[0]] + ops[1..];
  }

  lemma {:induction false} ReconcileRun(s: Store, ops: seq<Op>, scope: Scope, profile: Profile)
    requires StoreValid(s) && AllReconcile(ops)
    requires FileIsExact(s, scope, profile) || RebuildVectorOp(scope, profile) in ops
    ensures FileIsExact(Run(s, ops), scope, profile) && Run(s, ops).intake == s.intake
    decreases |ops|
  {
    hide StoreValid, Apply, FileIsExact, AllReconcile, IsReconcile, LiveKeys;
    if ops != [] {
      ApplyKeepsValid(s, ops[0]);
      TailOf(ops, RebuildVectorOp(scope, profile));
      if FileIsExact(s, scope, profile) || ops[0] == RebuildVectorOp(scope, profile) {
        ReconcileKeepsExact(s, ops[0], scope, profile);
      } else {
        ReconcileFrame(s, ops[0]);
      }
      ReconcileRun(Apply(s, ops[0]), ops[1..], scope, profile);
    }
  }

  /**
   * Boot. After recovery and reconciliation under `profile` no job is leased, and the profile's file
   * of every reconciled workspace holds exactly the ready keys: pending leftovers are gone.
   */
  lemma BootIsExact(before: seq<Op>, profile: Profile, boot: seq<Op>, scope: Scope)
    requires IsBoot(profile, boot, scope)
    ensures var s := Run(Reached(before), boot);
      && FileIsExact(s, scope, profile)
      && forall j :: j in s.intake.jobs ==> s.intake.jobs[j].status != Processing
  {
    hide StoreValid, FileIsExact, Reached;
    var s := Reached(before);
    ApplyKeepsValid(s, boot[0]);
    var s1 := Apply(s, boot[0]);
    assert RebuildVectorOp(scope, profile) in boot[1..] by {
      var k :| 0 < k < |boot| && boot[k] == RebuildVectorOp(scope, profile);
      assert boot[1..][k - 1] == boot[k];
    }
    ReconcileRun(s1, boot[1..], scope, profile);
    RecoverReturnsLeases(s, boot[0]);
  }

  lemma RecoverReturnsLeases(s: Store, op: Op)
    requires StoreValid(s) && op.RecoverOp?
    ensures forall j :: j in Apply(s, op).intake.jobs ==> Apply(s, op).intake.jobs[j].status != Processing
  {
    hide RecordsValid, VectorsPublished, TextsPublished, GraphPublished, VectorFilesSound, IntakeValid;
    ValidRecords(s);
    RecordsHaveIntake(s);
    RecoverKeepsValid(s.intake, op.now);
  }
}
