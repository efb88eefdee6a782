/** The phases of ingestion, publication, rebuild and cleanup, and what every state keeps. */
module StoreSpec {
  import opened Basics
  import opened GraphTypes
  import opened GraphProjection
  import opened StoreTypes
  import opened IntakeSpec

  // ------------------------------------------------- processing a claimed job

  /** The local variables of `process_claimed_ingestion_job` after its first transaction. */
  datatype Draft = Draft(jobId: Uuid, documentId: Uuid, scope: Scope, chunks: seq<Chunk>, firstKey: nat,
                         profile: Profile)

  function NewChunks(ids: seq<Uuid>, documentId: Uuid, texts: seq<string>): (chunks: seq<Chunk>)
    requires |ids| == |texts|
    ensures |chunks| == |texts|
    ensures forall o :: 0 <= o < |chunks| ==> chunks[o] == Chunk(ids[o], documentId, o, texts[o])
  {
    seq(|texts|, o requires 0 <= o < |texts| => Chunk(ids[o], documentId, o, texts[o]))
  }

  function IdsOf(chunks: seq<Chunk>): set<Uuid> {
    set c | c in chunks :: c.id
  }

  function NextKey(nextKeys: map<Scope, nat>, scope: Scope): nat {
    if scope in nextKeys then nextKeys[scope] else 1
  }

  function DraftOf(s: Store, jobId: Uuid, ids: seq<Uuid>, profile: Profile): Draft
    requires jobId in s.intake.jobs && jobId in s.intake.payloads
    requires |ids| == |ChunksOf(s.intake.payloads[jobId])|
  {
    var job := s.intake.jobs[jobId];
    Draft(jobId, job.documentId, job.scope, NewChunks(ids, job.documentId, ChunksOf(s.intake.payloads[jobId])),
          NextKey(s.vectors.nextKeys, job.scope), profile)
  }

  /** Ids drawn for the chunks of this attempt: one each, never used before. */
  ghost predicate FreshIds(s: Store, ids: seq<Uuid>, n: nat) {
    && |ids| == n
    && (forall i, j :: 0 <= i < j < n ==> ids[i] != ids[j])
    && (forall i :: 0 <= i < n ==> ids[i] !in s.texts.manifests)
  }

  function PendingVector(d: Draft, c: Chunk): VectorManifest {
    VectorManifest(c.id, d.scope, d.firstKey + c.ordinal, d.profile, PIPELINE_VERSION, Sha256(c.content), Pending)
  }

  function PendingText(d: Draft, c: Chunk): TextManifest {
    TextManifest(c.id, d.scope, Sha256(c.content), PIPELINE_VERSION, Pending)
  }

  function PendingGraph(d: Draft, c: Chunk): GraphManifest {
    GraphManifest(c.id, d.scope, Sha256(c.content), PIPELINE_VERSION, DETERMINISTIC_EXTRACTOR, EXTRACTION_VERSION,
                  Pending)
  }

  function AddRows(chunks: map<ChunkKey, Chunk>, cs: seq<Chunk>): map<ChunkKey, Chunk> {
    if cs == [] then chunks
    else
      var c := cs[|cs| - 1];
      AddRows(chunks, cs[..|cs| - 1])[ChunkKey(c.documentId, c.ordinal) := c]
  }

  function AddSlots(slots: map<AnnSlot, Uuid>, d: Draft, cs: seq<Chunk>): map<AnnSlot, Uuid> {
    if cs == [] then slots
    else
      var c := cs[|cs| - 1];
      AddSlots(slots, d, cs[..|cs| - 1])[AnnSlot(d.scope, d.firstKey + c.ordinal) := c.id]
  }

  function AddVectors(m: map<Uuid, VectorManifest>, d: Draft, cs: seq<Chunk>): map<Uuid, VectorManifest> {
    if cs == [] then m
    else
      var c := cs[|cs| - 1];
      AddVectors(m, d, cs[..|cs| - 1])[c.id := PendingVector(d, c)]
  }

  function AddTexts(m: map<Uuid, TextManifest>, d: Draft, cs: seq<Chunk>): map<Uuid, TextManifest> {
    if cs == [] then m
    else
      var c := cs[|cs| - 1];
      AddTexts(m, d, cs[..|cs| - 1])[c.id := PendingText(d, c)]
  }

  function AddGraphs(m: map<Uuid, GraphManifest>, d: Draft, cs: seq<Chunk>): map<Uuid, GraphManifest> {
    if cs == [] then m
    else
      var c := cs[|cs| - 1];
      AddGraphs(m, d, cs[..|cs| - 1])[c.id := PendingGraph(d, c)]
  }

  /** The first transaction: chunk rows, ANN keys and pending manifests. */
  function Prepare(s: Store, d: Draft): Store {
    s.(chunks := AddRows(s.chunks, d.chunks),
       vectors := Vectors(AddVectors(s.vectors.manifests, d, d.chunks),
                          s.vectors.nextKeys[d.scope := d.firstKey + |d.chunks|],
                          AddSlots(s.vectors.chunks, d, d.chunks)),
       texts := s.texts.(manifests := AddTexts(s.texts.manifests, d, d.chunks)),
       graphManifests := AddGraphs(s.graphManifests, d, d.chunks))
  }

  ghost function Live(s: Store, scope: Scope): map<Uuid, string>
    requires UniqueIds(s.chunks)
  {
    LiveIn(s.intake.documents, s.chunks, scope)
  }

  function DraftTexts(cs: seq<Chunk>): map<Uuid, string> {
    if cs == [] then map[] else DraftTexts(cs[..|cs| - 1])[cs[|cs| - 1].id := cs[|cs| - 1].content]
  }

  function DraftKeys(d: Draft, cs: seq<Chunk>): map<nat, string> {
    if cs == [] then map[]
    else DraftKeys(d, cs[..|cs| - 1])[d.firstKey + cs[|cs| - 1].ordinal := cs[|cs| - 1].content]
  }

  ghost function LiveKeys(s: Store, scope: Scope, profile: Profile): map<nat, string>
    requires UniqueIds(s.chunks) && UniqueKeys(s.vectors.manifests)
  {
    KeyedBy(s.vectors.manifests, Live(s, scope), scope, profile)
  }

  /** The atomic replacement of one vector file. */
  function WriteVectorFile(s: Store, scope: Scope, profile: Profile, entries: map<nat, string>): Store {
    s.(files := s.files.(vectors := s.files.vectors[VectorPath(scope, profile) := entries]))
  }

  /** A generation under construction, then renamed into place. */
  function WriteTextTemporary(s: Store, scope: Scope, generation: Uuid, entries: map<Uuid, string>): Store {
    s.(files := s.files.(texts := s.files.texts[Temporary(scope, generation) := entries]))
  }

  function RenameText(s: Store, scope: Scope, generation: Uuid, entries: map<Uuid, string>): Store {
    s.(files := s.files.(texts := (s.files.texts - {Temporary(scope, generation)})
                                  [Published(scope, generation) := entries]))
  }

  function ReadyVectors(m: map<Uuid, VectorManifest>, ids: set<Uuid>): map<Uuid, VectorManifest> {
    map i | i in m :: if i in ids then m[i].(state := Ready) else m[i]
  }

  function ReadyTexts(m: map<Uuid, TextManifest>, ids: set<Uuid>): map<Uuid, TextManifest> {
    map i | i in m :: if i in ids then m[i].(state := Ready) else m[i]
  }

  function ReadyGraphs(m: map<Uuid, GraphManifest>, ids: set<Uuid>): map<Uuid, GraphManifest> {
    map i | i in m :: if i in ids then m[i].(state := Ready) else m[i]
  }

  function Activate(active: map<Scope, TextGeneration>, scope: Scope, generation: Uuid): map<Scope, TextGeneration> {
    active[scope := TextGeneration(scope, generation, PIPELINE_VERSION)]
  }

  /** The final transaction: everything becomes visible at once. */
  function Commit(s: Store, d: Draft, generation: Uuid, now: nat): Store
    requires d.jobId in s.intake.jobs && s.intake.jobs[d.jobId].documentId in s.intake.documents
  {
    var ids := IdsOf(d.chunks);
    s.(intake := Succeed(s.intake, d.jobId, |d.chunks|, now),
       vectors := s.vectors.(manifests := ReadyVectors(s.vectors.manifests, ids)),
       texts := Texts(ReadyTexts(s.texts.manifests, ids), Activate(s.texts.active, d.scope, generation)),
       graphManifests := ReadyGraphs(s.graphManifests, ids),
       graph := Materialize(s.graph, d.scope, d.chunks))
  }

  /** Every directory named by an active record survives; of the others, `spared` are not removed (yet). */
  function CleanupTexts(s: Store, spared: set<TextPath>): Store {
    s.(files := s.files.(texts := map p | p in s.files.texts && (IsActivePath(s.texts.active, p) || p in spared) ::
                                    s.files.texts[p]))
  }

  predicate IsActivePath(active: map<Scope, TextGeneration>, p: TextPath) {
    p.Published? && p.scope in active && active[p.scope].generation == p.generation
  }

  // ------------------------------------------------- what every reachable state keeps

  predicate RowMatches(documents: map<Uuid, Document>, payloads: map<Uuid, string>, k: ChunkKey, c: Chunk) {
    && k.document in documents && documents[k.document].jobId in payloads
    && c.documentId == k.document && c.ordinal == k.ordinal
    && var texts := ChunksOf(payloads[documents[k.document].jobId]);
       k.ordinal < |texts| && c.content == texts[k.ordinal]
  }

  /** Whatever attempt wrote it, a chunk row is a chunk of its document's payload. */
  ghost predicate RowsMatch(documents: map<Uuid, Document>, payloads: map<Uuid, string>, chunks: map<ChunkKey, Chunk>) {
    forall k :: k in chunks ==> RowMatches(documents, payloads, k, chunks[k])
  }

  ghost predicate RowsComplete(documents: map<Uuid, Document>, payloads: map<Uuid, string>,
                               chunks: map<ChunkKey, Chunk>, d: Uuid)
    requires d in documents
  {
    && documents[d].jobId in payloads
    && documents[d].chunkCount == |ChunksOf(payloads[documents[d].jobId])|
    && forall o :: 0 <= o < documents[d].chunkCount ==> ChunkKey(d, o) in chunks
  }

  /** The chunk rows of a succeeded document are all of its chunks. */
  ghost predicate SucceededComplete(documents: map<Uuid, Document>, payloads: map<Uuid, string>,
                                    chunks: map<ChunkKey, Chunk>) {
    forall d :: d in documents && documents[d].status == Succeeded ==> RowsComplete(documents, payloads, chunks, d)
  }

  predicate SameManifest(i: Uuid, v: VectorManifest, t: TextManifest, g: GraphManifest) {
    && v == VectorManifest(i, t.scope, v.annKey, v.profile, PIPELINE_VERSION, t.sourceSha, t.state)
    && t == TextManifest(i, t.scope, t.sourceSha, PIPELINE_VERSION, t.state)
    && g == GraphManifest(i, t.scope, t.sourceSha, PIPELINE_VERSION, DETERMINISTIC_EXTRACTOR, EXTRACTION_VERSION,
                          t.state)
  }

  /** The three manifest tables move together. */
  ghost predicate ManifestsAgree(v: map<Uuid, VectorManifest>, t: map<Uuid, TextManifest>, g: map<Uuid,
                                 GraphManifest>) {
    && v.Keys == t.Keys == g.Keys
    && forall i :: i in t ==> SameManifest(i, v[i], t[i], g[i])
  }

  predicate RowManifested(documents: map<Uuid, Document>, manifests: map<Uuid, TextManifest>, k: ChunkKey, c: Chunk) {
    && k.document in documents && c.id in manifests
    && manifests[c.id].scope == documents[k.document].scope
    && manifests[c.id].sourceSha == Sha256(c.content)
    && (manifests[c.id].state == Ready <==> documents[k.document].status == Succeeded)
  }

  ghost predicate HasRow(chunks: map<ChunkKey, Chunk>, i: Uuid) {
    exists k :: k in chunks && chunks[k].id == i
  }

  /** A manifest is ready exactly when its chunk row belongs to a succeeded document. */
  ghost predicate ManifestsExact(documents: map<Uuid, Document>, chunks: map<ChunkKey, Chunk>,
                                 manifests: map<Uuid, TextManifest>) {
    && (forall k :: k in chunks ==> RowManifested(documents, manifests, k, chunks[k]))
    && (forall i :: i in manifests && manifests[i].state == Ready ==> HasRow(chunks, i))
  }

  predicate KeyAllocated(nextKeys: map<Scope, nat>, slots: map<AnnSlot, Uuid>, i: Uuid, m: VectorManifest) {
    && m.scope in nextKeys && 1 <= m.annKey < nextKeys[m.scope]
    && AnnSlot(m.scope, m.annKey) in slots && slots[AnnSlot(m.scope, m.annKey)] == i
  }

  predicate SlotBacked(manifests: map<Uuid, VectorManifest>, slot: AnnSlot, i: Uuid) {
    i in manifests && manifests[i].scope == slot.scope && manifests[i].annKey == slot.key
  }

  /** ANN keys: the counter exceeds them all and the slot table is their exact inverse. */
  ghost predicate KeysAllocated(v: Vectors) {
    && (forall scope :: scope in v.nextKeys ==> 1 <= v.nextKeys[scope] <= U64_MAX)
    && (forall i :: i in v.manifests ==> KeyAllocated(v.nextKeys, v.chunks, i, v.manifests[i]))
    && (forall slot :: slot in v.chunks ==> SlotBacked(v.manifests, slot, v.chunks[slot]))
  }

  /** Every published vector belongs to an allocated key and embeds the text of that key's chunk. */
  ghost predicate VectorEntrySound(v: Vectors, path: VectorPath, key: nat, text: string) {
    var slot := AnnSlot(path.scope, key);
    && slot in v.chunks && v.chunks[slot] in v.manifests
    && v.manifests[v.chunks[slot]].profile == path.profile
    && v.manifests[v.chunks[slot]].sourceSha == Sha256(text)
  }

  ghost predicate VectorFilesSound(v: Vectors, files: map<VectorPath, map<nat, string>>) {
    forall path, key :: path in files && key in files[path] ==> VectorEntrySound(v, path, key, files[path][key])
  }

  ghost predicate Contains<K, V>(big: map<K, V>, small: map<K, V>) {
    forall k :: k in small ==> k in big && big[k] == small[k]
  }

  /** Every ready key is in the published file of its profile. */
  ghost predicate VectorsPublished(s: Store)
    requires UniqueIds(s.chunks) && UniqueKeys(s.vectors.manifests)
  {
    forall scope, profile :: Contains(VectorFile(s.files, scope, profile), LiveKeys(s, scope, profile))
  }

  /** The active generation of a workspace indexes exactly its live chunks. */
  ghost predicate TextExact(active: map<Scope, TextGeneration>, files: map<TextPath, map<Uuid, string>>, scope: Scope,
                            live: map<Uuid, string>) {
    if scope in active then
      && active[scope] == TextGeneration(scope, active[scope].generation, PIPELINE_VERSION)
      && Published(scope, active[scope].generation) in files
      && files[Published(scope, active[scope].generation)] == live
    else live == map[]
  }

  ghost predicate TextsPublished(s: Store)
    requires UniqueIds(s.chunks)
  {
    forall scope :: TextExact(s.texts.active, s.files.texts, scope, Live(s, scope))
  }

  ghost predicate GraphPublished(s: Store)
    requires UniqueIds(s.chunks)
  {
    KeysMatch(s.graph) && forall scope :: RowsOf(s.graph, scope) == GraphFrom(scope, Live(s, scope))
  }

  /** The canonical records: what the projections are derived from. */
  ghost predicate RecordsValid(s: Store) {
    && IntakeValid(s.intake)
    && RowsMatch(s.intake.documents, s.intake.payloads, s.chunks)
    && UniqueIds(s.chunks)
    && SucceededComplete(s.intake.documents, s.intake.payloads, s.chunks)
    && ManifestsAgree(s.vectors.manifests, s.texts.manifests, s.graphManifests)
    && ManifestsExact(s.intake.documents, s.chunks, s.texts.manifests)
    && KeysAllocated(s.vectors) && UniqueKeys(s.vectors.manifests)
  }

  ghost predicate StoreValid(s: Store) {
    && RecordsValid(s)
    && VectorFilesSound(s.vectors, s.files.vectors)
    && VectorsPublished(s)
    && TextsPublished(s)
    && GraphPublished(s)
  }
}
