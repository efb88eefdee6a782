/** The table-level loops of the store's methods, and the facts that connect them to the specification. */
module StoreMethods {
  import opened Basics
  import opened GraphProjection
  import opened GraphTransaction
  import opened StoreTypes
  import opened IntakeSpec
  import opened StoreSpec
  import opened PrepareProofs
  import opened PublishProofs
  import opened CommitProofs
  import opened StoreRuns
  import opened StoreTheorems
  import opened TextIndex
  import opened VectorIndex
  import opened ReadySources
  import opened AttemptTables
  import Chunker

  method RebuiltGraph(graph: Graph, scope: Scope, chunks: seq<Chunk>) returns (rebuilt: Graph)
    requires KeysMatch(graph) && KeysMatch(ClearScope(graph, scope))
    ensures rebuilt == Rebuild(graph, scope, chunks)
  {
    hide KeysMatch, ClearScope, Materialize;
    var transaction := new Transaction(graph);
    transaction.ClearGraphWorkspace(scope);
    transaction.MaterializeGraphChunks(scope, chunks);
    rebuilt := transaction.View();
  }

  /** The workspaces that have a vector manifest. */
  function VectorScopes(manifests: map<Uuid, VectorManifest>): set<Scope> {
    set i | i in manifests :: manifests[i].scope
  }

  function TextScopes(manifests: map<Uuid, TextManifest>): set<Scope> {
    set i | i in manifests :: manifests[i].scope
  }

  function GraphScopes(manifests: map<Uuid, GraphManifest>): set<Scope> {
    set i | i in manifests :: manifests[i].scope
  }

  method PrepareTables(s: Store, jobId: Uuid, document: Document, texts: seq<string>, ids: seq<Uuid>, profile: Profile)
    returns (d: Draft, r: Result<Store>)
    requires KeysAllocated(s.vectors) && |ids| == |texts|
    ensures d == Draft(jobId, document.id, document.scope, NewChunks(ids, document.id, texts),
                       NextKey(s.vectors.nextKeys, document.scope), profile)
    ensures r.Ok? <==> d.firstKey + |d.chunks| <= U64_MAX
    ensures r.Ok? ==> r.value == Prepare(s, d) && r.value.files == s.files
  {
    hide KeysAllocated, AddRows, AddVectors, AddSlots, AddTexts, AddGraphs;
    var chunks, prepared := InsertChunks(s.chunks, ids, document.id, texts);
    d := Draft(jobId, document.id, document.scope, prepared, NextKey(s.vectors.nextKeys, document.scope), profile);
    var vectors := AllocateKeys(s.vectors, d);
    if vectors.Err? { return d, Err(AnnKeysExhausted); }
    var vectorManifests := InsertVectorManifests(s.vectors.manifests, d);
    var textManifests := InsertTextManifests(s.texts.manifests, d);
    var graphManifests := InsertGraphManifests(s.graphManifests, d);
    r := Ok(s.(chunks := chunks, vectors := vectors.value.(manifests := vectorManifests),
               texts := s.texts.(manifests := textManifests), graphManifests := graphManifests));
  }

  method CommitTables(s: Store, d: Draft, generation: Uuid, now: nat) returns (r: Result<Store>)
    requires KeysMatch(s.graph) && d.jobId in s.intake.jobs && s.intake.jobs[d.jobId].id == d.jobId
    requires s.intake.jobs[d.jobId].documentId == d.documentId && d.documentId in s.intake.documents
    requires s.vectors.manifests.Keys == s.texts.manifests.Keys == s.graphManifests.Keys
    ensures r.Ok? <==> IdsOf(d.chunks) <= s.vectors.manifests.Keys
    ensures r.Ok? ==> r.value == StoreSpec.Commit(s, d, generation, now) && r.value.files == s.files
    ensures r.Ok? ==> d.jobId in r.value.intake.jobs
  {
    hide Materialize, ReadyVectors, ReadyTexts, ReadyGraphs, IdsOf, KeysMatch;
    var vectorManifests := MarkVectorsReady(s.vectors.manifests, d.chunks);
    if vectorManifests.Err? { return Err(MissingManifest); }
    var textManifests := MarkTextsReady(s.texts.manifests, d.chunks);
    if textManifests.Err? { return Err(MissingManifest); }
    var transaction := new Transaction(s.graph);
    transaction.MaterializeGraphChunks(d.scope, d.chunks);
    var graphManifests := MarkGraphsReady(s.graphManifests, d.chunks);
    if graphManifests.Err? { return Err(MissingManifest); }
    var active := s.texts.active[d.scope := TextGeneration(d.scope, generation, PIPELINE_VERSION)];
    var document := s.intake.documents[d.documentId];
    document := document.(chunkCount := |d.chunks|, status := Succeeded);
    var job := s.intake.jobs[d.jobId];
    job := job.(status := Succeeded, lastError := None, nextAttemptAt := None, leaseExpiresAt := None,
                updatedAt := now);
    var intake := s.intake.(documents := s.intake.documents[d.documentId := document],
                            jobs := s.intake.jobs[d.jobId := job]);
    assert intake == Succeed(s.intake, d.jobId, |d.chunks|, now);
    r := Ok(s.(intake := intake, vectors := s.vectors.(manifests := vectorManifests.value),
               texts := Texts(textManifests.value, active), graphManifests := graphManifests.value,
               graph := transaction.View()));
  }

  /** The keys of every leased job, in table order. */
  method CollectLeased(jobs: map<Uuid, Job>) returns (candidates: seq<Uuid>)
    ensures forall j :: j in candidates <==> j in LeasedJobs(jobs)
    ensures |candidates| == |LeasedJobs(jobs)|
  {
    hide LeasedAmong, LeasedJobs, InOrder;
    var keys := InOrder(jobs.Keys);
    candidates := [];
    LeasedInAll(jobs, keys);
    for i := 0 to |keys|
      invariant |candidates| == |LeasedAmong(jobs, keys[..i])|
      invariant forall j :: j in candidates <==> j in LeasedAmong(jobs, keys[..i])
    {
      LeasedOneMore(jobs, keys, i);
      if jobs[keys[i]].status == Processing { candidates := candidates + [keys[i]]; }
    }
  }

  function LeasedAmong(jobs: map<Uuid, Job>, keys: seq<Uuid>): set<Uuid> {
    set j | j in keys && j in jobs && jobs[j].status == Processing
  }

  lemma LeasedOneMore(jobs: map<Uuid, Job>, keys: seq<Uuid>, i: nat)
    requires i < |keys| && Ascending(keys) && keys[i] in jobs
    ensures keys[i] !in LeasedAmong(jobs, keys[..i])
    ensures LeasedAmong(jobs, keys[..i + 1]) == LeasedAmong(jobs, keys[..i])
                                                + if jobs[keys[i]].status == Processing then {keys[i]} else {}
  {
    assert keys[..i + 1] == keys[..i] + [keys[i]];
  }

  lemma LeasedInAll(jobs: map<Uuid, Job>, keys: seq<Uuid>)
    requires forall j :: j in keys <==> j in jobs
    ensures LeasedAmong(jobs, keys[..0]) == {}
    ensures LeasedAmong(jobs, keys[..|keys|]) == LeasedJobs(jobs)
  {
    assert keys[..|keys|] == keys;
  }

  method RequeueJobs(t: Intake, candidates: seq<Uuid>, now: nat) returns (jobs': map<Uuid, Job>)
    requires forall j :: j in candidates <==> j in LeasedJobs(t.jobs)
    ensures jobs' == Recover(t, now).jobs
  {
    var jobs := t.jobs;
    jobs' := jobs;
    for i := 0 to |candidates|
      invariant jobs'.Keys == jobs.Keys
      invariant forall j :: j in jobs ==> jobs'[j] == if j in candidates[..i] then RecoverJob(jobs[j], now) else jobs[j]
    {
      assert candidates[i] in candidates;
      var job := jobs[candidates[i]];
      jobs' := jobs'[candidates[i] := Requeued(job, now)];
    }
    assert candidates[..|candidates|] == candidates;
  }

  function RequeuedIf(d: Document, candidates: seq<Uuid>): Document {
    if d.jobId in candidates then d.(status := Queued) else d
  }

  method RequeueDocuments(t: Intake, candidates: seq<Uuid>, now: nat) returns (r: Result<map<Uuid, Document>>)
    requires IntakeValid(t) && forall j :: j in candidates <==> j in LeasedJobs(t.jobs)
    ensures r == Ok(Recover(t, now).documents)
  {
    hide IntakeValid, RequeuedIf;
    var documents' := t.documents;
    NothingRequeued(t);
    for i := 0 to |candidates|
      invariant documents'.Keys == t.documents.Keys
      invariant forall d :: d in t.documents ==> documents'[d] == RequeuedIf(t.documents[d], candidates[..i])
    {
      assert candidates[i] in candidates;
      OnlyDocument(t, candidates[i]);
      var d := t.jobs[candidates[i]].documentId;
      if d !in documents' { return Err(MissingDocument); }
      OneMoreRequeued(t, candidates, i, documents', d);
      documents' := documents'[d := documents'[d].(status := Queued)];
    }
    assert candidates[..|candidates|] == candidates;
    AllRequeued(t, candidates, documents', now);
    return Ok(documents');
  }

  lemma NothingRequeued(t: Intake)
    ensures forall d :: d in t.documents ==> t.documents[d] == RequeuedIf(t.documents[d], [])
  {
  }

  lemma AllRequeued(t: Intake, candidates: seq<Uuid>, documents': map<Uuid, Document>, now: nat)
    requires forall j :: j in candidates <==> j in LeasedJobs(t.jobs)
    requires documents'.Keys == t.documents.Keys
    requires forall d :: d in t.documents ==> documents'[d] == RequeuedIf(t.documents[d], candidates)
    ensures documents' == Recover(t, now).documents
  {
  }

  lemma RequeuedNext(d: Document, candidates: seq<Uuid>, i: nat)
    requires i < |candidates|
    ensures RequeuedIf(d, candidates[..i + 1])
         == if d.jobId == candidates[i] then d.(status := Queued) else RequeuedIf(d, candidates[..i])
  {
    assert candidates[..i + 1] == candidates[..i] + [candidates[i]];
  }

  lemma OneMoreRequeued(t: Intake, candidates: seq<Uuid>, i: nat, documents': map<Uuid, Document>, d: Uuid)
    requires IntakeValid(t) && i < |candidates| && candidates[i] in t.jobs && d == t.jobs[candidates[i]].documentId
    requires d in documents' && documents'.Keys == t.documents.Keys
    requires forall e :: e in t.documents ==> documents'[e] == RequeuedIf(t.documents[e], candidates[..i])
    ensures forall e :: e in t.documents ==>
              documents'[d := documents'[d].(status := Queued)][e] == RequeuedIf(t.documents[e], candidates[..i + 1])
  {
    hide IntakeValid, RequeuedIf;
    OnlyDocument(t, candidates[i]);
    forall e | e in t.documents
      ensures documents'[d := documents'[d].(status := Queued)][e] == RequeuedIf(t.documents[e], candidates[..i + 1])
    {
      RequeuedNext(t.documents[e], candidates, i);
      RequeuedAgain(t.documents[e], candidates[..i]);
    }
  }

  lemma RequeuedAgain(d: Document, candidates: seq<Uuid>)
    ensures RequeuedIf(d, candidates).(status := Queued) == d.(status := Queued)
  {
  }

  function LeasedJobs(jobs: map<Uuid, Job>): set<Uuid> {
    set j | j in jobs && jobs[j].status == Processing
  }

  /** The first eligible job in table order. */
  method FirstEligible(jobs: map<Uuid, Job>, now: nat) returns (candidate: Option<Uuid>)
    ensures candidate.None? <==> forall j :: j in jobs ==> !IsEligible(jobs[j], now)
    ensures candidate.Some? ==> candidate.value in jobs && IsEligible(jobs[candidate.value], now)
                                && forall j :: j in jobs && IsEligible(jobs[j], now) ==> candidate.value <= j
  {
    hide IsEligible, InOrder, Ascending;
    var keys := InOrder(jobs.Keys);
    for i := 0 to |keys|
      invariant forall k :: 0 <= k < i ==> !IsEligible(jobs[keys[k]], now)
    {
      if IsEligible(jobs[keys[i]], now) {
        RestIsLater(keys, i);
        return Some(keys[i]);
      }
    }
    return None;
  }

  // ------------------------------------------------- what the methods lean on

  /** The store after the first `io` file-system steps of publishing a text generation. */
  function TextStep(s: Store, scope: Scope, generation: Uuid, entries: map<Uuid, string>, torn: map<Uuid, string>,
                    io: nat): Store {
    if io == 0 then s
    else if io == 1 then WriteTextTemporary(s, scope, generation, torn)
    else RenameText(s, scope, generation, entries)
  }

  lemma {:induction false} IndexedAppends(a: seq<TextEntry>, b: seq<TextEntry>)
    ensures Indexed(a + b) == Indexed(a) + Indexed(b)
  {
    if b == [] {
      assert a + b == a;
    } else {
      var n := |b| - 1;
      assert (a + b)[..|a + b| - 1] == a + b[..n];
      IndexedAppends(a, b[..n]);
      UpdateRight(Indexed(a), Indexed(b[..n]), b[n].chunkId, b[n].content);
    }
  }

  function ActivePaths(active: map<Scope, TextGeneration>): set<TextPath> {
    set scope | scope in active :: Published(scope, active[scope].generation)
  }

  lemma KeptIsCleanup(s: Store, spared: set<TextPath>)
    ensures s.(files := s.files.(texts := Kept(s.files.texts, ActivePaths(s.texts.active) + spared)))
         == CleanupTexts(s, spared)
  {
  }

  lemma ChunksAre(content: string)
    ensures ChunksOf(content) == Chunker.ChunkText(content, Chunker.MAXIMUM_CHARS)
  {
  }

  lemma FreshHasLength(s: Store, ids: seq<Uuid>, n: nat)
    requires FreshIds(s, ids, n)
    ensures |ids| == n
  {
  }

  lemma AttemptFacts(s: Store, j: Uuid)
    requires StoreValid(s) && j in s.intake.jobs
    ensures KeysAllocated(s.vectors)
    ensures j in s.intake.payloads && ChunksOf(s.intake.payloads[j]) != []
    ensures s.intake.jobs[j].id == j && s.intake.jobs[j].documentId in s.intake.documents
    ensures var document := s.intake.documents[s.intake.jobs[j].documentId];
      && document.jobId == j && document.scope == s.intake.jobs[j].scope && document.id == s.intake.jobs[j].documentId
  {
    hide ChunksOf, RowsMatch, SucceededComplete, ManifestsAgree, ManifestsExact, KeysAllocated, UniqueKeys, UniqueIds,
         VectorsPublished, TextsPublished, GraphPublished, VectorFilesSound, DedupExact, IdempotencyExact;
    assert JobLinked(s.intake.documents, s.intake.jobs[j], j);
    assert JobWellFormed(s.intake.jobs[j], s.intake.payloads[j]);
    assert DocumentLinked(s.intake.jobs, s.intake.documents[s.intake.jobs[j].documentId], s.intake.jobs[j].documentId);
    PayloadHasChunks(s.intake.payloads[j]);
  }

  lemma CommitFacts(s: Store, d: Draft)
    requires StoreValid(s) && DraftStored(s, d)
    ensures d.jobId in s.intake.jobs && s.intake.jobs[d.jobId].id == d.jobId
    ensures s.intake.jobs[d.jobId].documentId == d.documentId && d.documentId in s.intake.documents
    ensures KeysMatch(s.graph)
    ensures IdsOf(d.chunks) <= s.vectors.manifests.Keys
    ensures s.vectors.manifests.Keys == s.texts.manifests.Keys == s.graphManifests.Keys
  {
    hide ChunksOf, RowsMatch, SucceededComplete, ManifestsExact, KeysAllocated, UniqueKeys, UniqueIds,
         VectorsPublished, TextsPublished, VectorFilesSound, DedupExact, IdempotencyExact, KeysMatch;
    AttemptFacts(s, d.jobId);
    forall i | i in IdsOf(d.chunks)
      ensures i in s.vectors.manifests
    {
      var c :| c in d.chunks && c.id == i;
      assert ChunkStored(s, d, c);
    }
  }

  lemma CannotProcess(s: Store, j: Uuid, ids: seq<Uuid>, generation: Uuid, profile: Profile, steps: nat,
                      torn: map<Uuid, string>, spared: set<TextPath>, now: nat)
    requires StoreValid(s)
    ensures steps == 0 || !CanProcess(s, j, ids, generation, profile) ==>
              Apply(s, ProcessOp(j, ids, generation, profile, steps, torn, spared, now)) == s
  {
    hide StoreValid, FreshIds, ChunksOf, Publish;
  }

  lemma ProcessIsPublish(s: Store, j: Uuid, ids: seq<Uuid>, generation: Uuid, profile: Profile)
    requires StoreValid(s) && CanProcess(s, j, ids, generation, profile)
    ensures var d := DraftOf(s, j, ids, profile);
      StoreValid(Prepare(s, d)) && DraftStored(Prepare(s, d), d) && Prepare(s, d).files == s.files
      && d.profile == profile
  {
    hide StoreValid, FreshIds, ChunksOf, DraftStored, DraftFresh;
    CanProcessIsFresh(s, j, ids, generation, profile);
    FreshHasLength(s, ids, |ChunksOf(s.intake.payloads[j])|);
    PrepareKeepsValid(s, DraftOf(s, j, ids, profile));
  }

  lemma PublishIsApply(s: Store, j: Uuid, ids: seq<Uuid>, generation: Uuid, profile: Profile, steps: nat,
                       torn: map<Uuid, string>, spared: set<TextPath>, now: nat)
    requires StoreValid(s) && CanProcess(s, j, ids, generation, profile) && steps > 0
    ensures var d := DraftOf(s, j, ids, profile);
      && DraftStored(Prepare(s, d), d)
      && UniqueIds(Prepare(s, d).chunks) && UniqueKeys(Prepare(s, d).vectors.manifests)
      && Apply(s, ProcessOp(j, ids, generation, profile, steps, torn, spared, now))
         == Publish(Prepare(s, d), d, generation, steps, torn, spared, now)
  {
    hide StoreValid, FreshIds, ChunksOf, DraftStored, DraftFresh, Publish, Prepare;
    CanProcessIsFresh(s, j, ids, generation, profile);
    FreshHasLength(s, ids, |ChunksOf(s.intake.payloads[j])|);
    PrepareKeepsValid(s, DraftOf(s, j, ids, profile));
    ValidIsUnique(Prepare(s, DraftOf(s, j, ids, profile)));
  }

  function VectorEntriesOf(d: Draft, cs: seq<Chunk>): seq<VectorEntry> {
    seq(|cs|, o requires 0 <= o < |cs| => VectorEntry(d.firstKey + cs[o].ordinal, cs[o].content))
  }

  function TextEntriesOf(cs: seq<Chunk>): seq<TextEntry> {
    seq(|cs|, o requires 0 <= o < |cs| => TextEntry(cs[o].id, cs[o].content))
  }

  lemma {:induction false} DraftIndexed(d: Draft, cs: seq<Chunk>)
    requires Numbered(d.documentId, cs)
    ensures Keyed(VectorEntriesOf(d, cs)) == DraftKeys(d, cs) && DistinctKeys(VectorEntriesOf(d, cs))
    ensures Indexed(TextEntriesOf(cs)) == DraftTexts(cs)
  {
    if cs != [] {
      var rest := cs[..|cs| - 1];
      DraftIndexed(d, rest);
      DraftKeysExact(d, rest);
      assert VectorEntriesOf(d, cs)[..|cs| - 1] == VectorEntriesOf(d, rest);
      assert TextEntriesOf(cs)[..|cs| - 1] == TextEntriesOf(rest);
    }
  }

  /** The entries of an attempt repeat no key, of their own or of the ready vectors. */
  lemma DraftEntries(s: Store, d: Draft)
    requires StoreValid(s) && DraftStored(s, d)
    ensures UniqueIds(s.chunks) && UniqueKeys(s.vectors.manifests)
    ensures Keyed(VectorEntriesOf(d, d.chunks)) == DraftKeys(d, d.chunks) && DistinctKeys(VectorEntriesOf(d, d.chunks))
    ensures Indexed(TextEntriesOf(d.chunks)) == DraftTexts(d.chunks)
    ensures DraftKeys(d, d.chunks).Keys !! LiveKeys(s, d.scope, d.profile).Keys
  {
    hide RecordsValid, VectorsPublished, TextsPublished, GraphPublished, VectorFilesSound, DraftOfJob, DraftKeys,
         DraftTexts, LiveKeys;
    RecordsAreUnique(s);
    DraftShape(s.intake, d);
    DraftIndexed(d, d.chunks);
    DraftKeysFresh(s, d);
  }

  lemma CleanupFrame(s: Store, d: Draft, generation: Uuid, spared: set<TextPath>, now: nat)
    requires d.jobId in s.intake.jobs && s.intake.jobs[d.jobId].documentId in s.intake.documents
    ensures CleanupTexts(StoreSpec.Commit(s, d, generation, now), spared).intake
         == StoreSpec.Commit(s, d, generation, now).intake
  {
  }

  lemma RebuildTextIs(s: Store, scope: Scope, generation: Uuid, steps: nat, torn: map<Uuid, string>,
                      spared: set<TextPath>)
    requires StoreValid(s) && Published(scope, generation) !in s.files.texts
    ensures UniqueIds(s.chunks)
    ensures Apply(s, RebuildTextOp(scope, generation, steps, torn, spared))
         == RebuildText(s, scope, generation, steps, torn, spared)
    ensures StoreValid(RebuildText(s, scope, generation, steps, torn, spared))
  {
    hide StoreValid, RebuildText;
    ValidIsUnique(s);
    RebuildTextKeepsValid(s, scope, generation, steps, torn, spared);
  }

  lemma RebuildGraphIs(s: Store, scope: Scope, chunks: seq<Chunk>)
    requires StoreValid(s) && Lists(chunks, Live(s, scope))
    ensures UniqueIds(s.chunks) && ListsLive(s, scope, chunks)
    ensures Apply(s, RebuildGraphOp(scope, chunks)) == s.(graph := Rebuild(s.graph, scope, chunks))
    ensures ListsLive(s.(graph := Rebuild(s.graph, scope, chunks)), scope, chunks)
    ensures KeysMatch(s.graph) && KeysMatch(ClearScope(s.graph, scope))
    ensures forall other :: RowsOf(Rebuild(s.graph, scope, chunks), other) == RowsOf(s.graph, other)
  {
    hide StoreValid, KeysMatch, ClearScope, Rebuild, RowsOf, LiveIn, DistinctIds, IdsOf, UniqueIds;
    ValidIsUnique(s);
    ClearKeepsKeys(s, scope);
    RebuildKeepsValid(s, scope, chunks);
  }

  lemma ClearKeepsKeys(s: Store, scope: Scope)
    requires StoreValid(s)
    ensures KeysMatch(s.graph) && KeysMatch(ClearScope(s.graph, scope))
  {
    hide RecordsValid, VectorsPublished, TextsPublished, VectorFilesSound, KeysMatch, ClearScope, RowsOf, GraphFrom,
         LiveIn;
    RecordsAreUnique(s);
    ClearRows(s.graph, scope, Live(s, scope));
  }

  lemma CleanupIs(s: Store, spared: set<TextPath>)
    ensures CleanupTexts(s, spared) == s.(files := CleanupTexts(s, spared).files)
    ensures CleanupTexts(s, spared).files.vectors == s.files.vectors
    ensures spared == {} ==> forall p :: p in CleanupTexts(s, spared).files.texts ==> IsActivePath(s.texts.active, p)
  {
  }

  lemma StaysExact(s: Store, s': Store, scope: Scope, profile: Profile)
    requires StoreValid(s) && StoreValid(s') && FileIsExact(s, scope, profile)
    requires s'.intake == s.intake && s'.chunks == s.chunks && s'.vectors == s.vectors
    requires s'.files.vectors == s.files.vectors
    ensures FileIsExact(s', scope, profile)
  {
    hide StoreValid, LiveKeys;
    ExactDependsOn(s, s', scope, profile);
  }

  lemma AllStayExact(s: Store, s': Store, scopes: set<Scope>, profile: Profile)
    requires StoreValid(s) && StoreValid(s')
    requires s'.intake == s.intake && s'.chunks == s.chunks && s'.vectors == s.vectors
    requires s'.files.vectors == s.files.vectors
    requires forall scope :: scope in scopes ==> FileIsExact(s, scope, profile)
    ensures forall scope :: scope in scopes ==> FileIsExact(s', scope, profile)
  {
    hide StoreValid, FileIsExact;
    forall scope | scope in scopes
      ensures FileIsExact(s', scope, profile)
    {
      StaysExact(s, s', scope, profile);
    }
  }

  lemma RestIsLater(keys: seq<Uuid>, i: nat)
    requires Ascending(keys) && i < |keys|
    ensures forall j :: j in keys ==> keys[i] <= j || j in keys[..i]
  {
    forall j | j in keys
      ensures keys[i] <= j || j in keys[..i]
    {
      var k :| 0 <= k < |keys| && keys[k] == j;
      if k < i { assert keys[..i][k] == j; }
    }
  }

  lemma OnlyDocument(t: Intake, j: Uuid)
    requires IntakeValid(t) && j in t.jobs
    ensures t.jobs[j].documentId in t.documents
    ensures forall d :: d in t.documents && t.documents[d].jobId == j ==> d == t.jobs[j].documentId
    ensures t.documents[t.jobs[j].documentId].jobId == j && t.jobs[j].id == j && j in t.payloads
  {
    hide JobWellFormed, DedupExact, IdempotencyExact;
    assert JobLinked(t.documents, t.jobs[j], j);
    assert forall d :: d in t.documents ==> DocumentLinked(t.jobs, t.documents[d], d);
  }

  lemma LeastIsUnique(x: Uuid, s: set<Uuid>)
    requires x in s && forall y :: y in s ==> x <= y
    ensures Least(s) == x
  {
  }

  lemma IntakeStep(s: Store, op: Op)
    requires StoreValid(s) && IsIntakeOp(s.intake, op)
    ensures Apply(s, op) == s.(intake := IntakeAfter(s.intake, op))
    ensures StoreValid(Apply(s, op)) && IntakeValid(s.intake)
  {
    hide StoreValid;
    ApplyKeepsValid(s, op);
    assert RecordsValid(s) by { ValidRecords(s); }
    RecordsHaveIntake(s);
  }
}
