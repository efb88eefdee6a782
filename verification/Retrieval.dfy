/** `retrieve_chunks`: three candidate maps, joined with the canonical tables and fused into one ranking. */
module Retrieval {
  import opened Basics
  import opened GraphTypes
  import opened GraphProjection
  import opened StoreTypes
  import opened IntakeSpec
  import opened StoreSpec
  import opened PrepareProofs
  import opened PublishProofs
  import opened Sorting
  import opened GraphTraversal
  import opened GraphSearch
  import opened GraphDistance
  import Chunker

  /** What the text, vector and graph searches returned: chunk ids, ANN keys and chunk ids, with scores. */
  datatype Found = Found(texts: map<Uuid, real>, vectors: map<nat, real>, graphs: map<Uuid, real>)

  datatype Hit = Hit(chunk: Chunk, source: Option<string>, lexical: Option<real>, vector: Option<real>,
                     graph: Option<real>)

  function Lookup<K>(scores: map<K, real>, k: K): Option<real> {
    if k in scores then Some(scores[k]) else None
  }

  // ------------------------------------------------- what should be found

  /** The scores of a live chunk, with no manifest in sight except for its ANN key. */
  ghost predicate IsHit(s: Store, scope: Scope, profile: Profile, found: Found, h: Hit)
    requires UniqueIds(s.chunks)
  {
    var i := h.chunk.id;
    && i in Live(s, scope) && h.chunk.content == Live(s, scope)[i]
    && ChunkKey(h.chunk.documentId, h.chunk.ordinal) in s.chunks
    && s.chunks[ChunkKey(h.chunk.documentId, h.chunk.ordinal)] == h.chunk
    && h.chunk.documentId in s.intake.documents && h.source == s.intake.documents[h.chunk.documentId].source
    && h.lexical == Lookup(found.texts, i)
    && h.graph == Lookup(found.graphs, i)
    && i in s.vectors.manifests
    && h.vector == (if s.vectors.manifests[i].profile == profile
                    then Lookup(found.vectors, s.vectors.manifests[i].annKey)
                    else None)
    && (h.lexical.Some? || h.vector.Some? || h.graph.Some?)
  }

  /** Some search found the chunk. */
  ghost predicate IsFound(s: Store, profile: Profile, found: Found, i: Uuid) {
    || i in found.texts || i in found.graphs
    || (i in s.vectors.manifests && s.vectors.manifests[i].profile == profile
        && s.vectors.manifests[i].annKey in found.vectors)
  }

  ghost predicate HasHit(all: seq<Hit>, i: Uuid) {
    exists h :: h in all && h.chunk.id == i
  }

  /** One hit for each live chunk that some search found, and nothing else. */
  ghost predicate AreTheHits(s: Store, scope: Scope, profile: Profile, found: Found, all: seq<Hit>)
    requires UniqueIds(s.chunks)
  {
    && (forall h :: h in all ==> IsHit(s, scope, profile, found, h))
    && (forall i :: i in Live(s, scope) && IsFound(s, profile, found, i) ==> HasHit(all, i))
  }

  // ------------------------------------------------- fusion

  function OrZero(score: Option<real>): real {
    if score.Some? then score.value else 0.0
  }

  function Fused(h: Hit, maxLexical: real): real {
    (if maxLexical > 0.0 then OrZero(h.lexical) / maxLexical else 0.0) + OrZero(h.vector) * 2.0 + OrZero(h.graph) * 0.5
  }

  predicate NotAfter(a: Hit, b: Hit, maxLexical: real) {
    || Fused(a, maxLexical) > Fused(b, maxLexical)
    || (Fused(a, maxLexical) == Fused(b, maxLexical)
        && (a.chunk.documentId < b.chunk.documentId
            || (a.chunk.documentId == b.chunk.documentId && a.chunk.ordinal <= b.chunk.ordinal)))
  }

  /** The greatest lexical score, or zero. */
  ghost predicate IsMaxLexical(all: seq<Hit>, m: real) {
    && m >= 0.0 && (forall h :: h in all ==> OrZero(h.lexical) <= m)
    && (m == 0.0 || exists h :: h in all && OrZero(h.lexical) == m)
  }

  lemma NotAfterOrders(m: real)
    ensures IsTotalPreorder((a, b) => NotAfter(a, b, m))
  {
    hide Fused;
  }

  // ------------------------------------------------- the loops

  /** The join of one chunk row with its document and its three manifests. */
  method JoinRow(s: Store, scope: Scope, profile: Profile, found: Found, k: ChunkKey) returns (hit: Option<Hit>)
    requires RecordsValid(s) && k in s.chunks
    ensures hit.Some? <==> IsLive(s.intake.documents, scope, k.document) && IsFound(s, profile, found, s.chunks[k].id)
    ensures hit.Some? ==> hit.value.chunk == s.chunks[k] && IsHit(s, scope, profile, found, hit.value)
  {
    hide IntakeValid, SucceededComplete, KeysAllocated, UniqueKeys, UniqueIds, LiveIn, ManifestsExact, RowsMatch,
         ManifestsAgree;
    RowFacts(s, scope, k);
    var chunk := s.chunks[k];
    if chunk.documentId !in s.intake.documents { return None; }
    var document := s.intake.documents[chunk.documentId];
    if document.scope != scope { return None; }
    if document.status != Succeeded { return None; }
    var lexical, vector, graph: Option<real> := None, None, None;
    if chunk.id in s.texts.manifests {
      var m := s.texts.manifests[chunk.id];
      if m.scope == scope && m.state == Ready && m.pipelineVersion == PIPELINE_VERSION {
        lexical := Lookup(found.texts, chunk.id);
      }
    }
    if chunk.id in s.vectors.manifests {
      var m := s.vectors.manifests[chunk.id];
      if m.scope == scope && m.state == Ready && m.profile == profile && m.pipelineVersion == PIPELINE_VERSION {
        vector := Lookup(found.vectors, m.annKey);
      }
    }
    if chunk.id in s.graphManifests {
      var m := s.graphManifests[chunk.id];
      if m.scope == scope && m.state == Ready && m.pipelineVersion == PIPELINE_VERSION
         && m.extractor == DETERMINISTIC_EXTRACTOR && m.extractionVersion == EXTRACTION_VERSION {
        graph := Lookup(found.graphs, chunk.id);
      }
    }
    if lexical.None? && vector.None? && graph.None? { return None; }
    return Some(Hit(chunk, document.source, lexical, vector, graph));
  }

  /** A row of a succeeded document is live, and its three manifests are ready; no other row is. */
  lemma RowFacts(s: Store, scope: Scope, k: ChunkKey)
    requires RecordsValid(s) && k in s.chunks
    ensures UniqueIds(s.chunks)
    ensures s.chunks[k].documentId == k.document && s.chunks[k].ordinal == k.ordinal
    ensures var i := s.chunks[k].id;
      && i in s.texts.manifests && i in s.vectors.manifests && i in s.graphManifests
      && SameManifest(i, s.vectors.manifests[i], s.texts.manifests[i], s.graphManifests[i])
      && (IsLive(s.intake.documents, scope, k.document) ==>
            && i in Live(s, scope) && Live(s, scope)[i] == s.chunks[k].content
            && s.texts.manifests[i].scope == scope && s.texts.manifests[i].state == Ready)
  {
    hide IntakeValid, SucceededComplete, KeysAllocated, UniqueKeys, UniqueIds, LiveIn, ChunksOf;
    assert RowMatches(s.intake.documents, s.intake.payloads, k, s.chunks[k]);
    assert RowManifested(s.intake.documents, s.texts.manifests, k, s.chunks[k]);
    var i := s.chunks[k].id;
    assert SameManifest(i, s.vectors.manifests[i], s.texts.manifests[i], s.graphManifests[i]);
    if IsLive(s.intake.documents, scope, k.document) { LiveEntry(s.intake.documents, s.chunks, scope, k); }
  }

  method JoinRows(s: Store, scope: Scope, profile: Profile, found: Found) returns (all: seq<Hit>)
    requires RecordsValid(s)
    ensures AreTheHits(s, scope, profile, found, all) && Distinct(all)
  {
    hide RecordsValid, UniqueIds, IsHit, IsFound, LiveIn, Distinct, HasHit, IsLive;
    RecordsAreUnique(s);
    var pending := s.chunks.Keys;
    all := [];
    assert Distinct(all) by { NoneRepeated(); }
    while pending != {}
      invariant pending <= s.chunks.Keys && Distinct(all)
      invariant forall h :: h in all ==> IsHit(s, scope, profile, found, h) && HasRowIn(s.chunks, pending, h)
      invariant forall k :: k in s.chunks && k !in pending && IsLive(s.intake.documents, scope, k.document) ==>
                  IsFound(s, profile, found, s.chunks[k].id) ==> HasHit(all, s.chunks[k].id)
    {
      var k :| k in pending;
      var hit := JoinRow(s, scope, profile, found, k);
      if hit.Some? {
        NewHit(s, pending, all, hit.value, k);
        all := all + [hit.value];
      }
      pending := pending - {k};
    }
    forall i | i in Live(s, scope) && IsFound(s, profile, found, i)
      ensures HasHit(all, i)
    {
      var k := LiveOrigin(s.intake.documents, s.chunks, scope, i);
    }
  }

  lemma NoneRepeated()
    ensures Distinct<Hit>([])
  {
  }

  /** The hit comes from a row that the loop has left behind. */
  ghost predicate HasRowIn(chunks: map<ChunkKey, Chunk>, pending: set<ChunkKey>, h: Hit) {
    exists k :: k in chunks && k !in pending && chunks[k] == h.chunk
  }

  lemma NewHit(s: Store, pending: set<ChunkKey>, all: seq<Hit>, hit: Hit, k: ChunkKey)
    requires UniqueIds(s.chunks) && k in pending && k in s.chunks && s.chunks[k] == hit.chunk && Distinct(all)
    requires forall h :: h in all ==> HasRowIn(s.chunks, pending, h)
    ensures Distinct(all + [hit])
    ensures forall h :: h in all + [hit] ==> HasRowIn(s.chunks, pending - {k}, h)
    ensures HasHit(all + [hit], hit.chunk.id) && forall i :: HasHit(all, i) ==> HasHit(all + [hit], i)
  {
    assert hit !in all;
    assert (all + [hit])[|all|] == hit;
    assert HasRowIn(s.chunks, pending - {k}, hit);
    forall h | h in all
      ensures HasRowIn(s.chunks, pending - {k}, h)
    {
      var l :| l in s.chunks && l !in pending && s.chunks[l] == h.chunk;
    }
    forall i | HasHit(all, i)
      ensures HasHit(all + [hit], i)
    {
      var h :| h in all && h.chunk.id == i;
      assert h in all + [hit];
    }
  }

  method MaxLexical(all: seq<Hit>) returns (m: real)
    ensures IsMaxLexical(all, m)
  {
    m := 0.0;
    for i := 0 to |all|
      invariant IsMaxLexical(all[..i], m)
    {
      assert all[..i + 1] == all[..i] + [all[i]];
      if OrZero(all[i].lexical) > m {
        m := OrZero(all[i].lexical);
        assert all[i] in all[..i + 1];
      }
    }
    assert all[..|all|] == all;
  }

  // ------------------------------------------------- the three searches

  /** What the libraries answer: chunk ids with scores, and ANN keys with cosine distances. */
  datatype Searches = Searches(texts: Result<map<Uuid, real>>, distances: Result<map<nat, real>>)

  /** The directory that `retrieve_chunks` searches; a workspace without an active generation has none. */
  function ActiveIndex(s: Store, scope: Scope): map<Uuid, string> {
    if !HasGeneration(s, scope) then map[]
    else
      var path := Published(scope, s.texts.active[scope].generation);
      if path in s.files.texts then s.files.texts[path] else map[]
  }

  predicate HasGeneration(s: Store, scope: Scope) {
    scope in s.texts.active && s.texts.active[scope].scope == scope
    && s.texts.active[scope].pipelineVersion == PIPELINE_VERSION
  }

  /** A library returns entries of the index that it was given; which ones is left open. */
  ghost predicate FromIndexes(s: Store, scope: Scope, profile: Profile, searches: Searches) {
    && (searches.texts.Ok? ==> searches.texts.value.Keys <= ActiveIndex(s, scope).Keys)
    && (searches.distances.Ok? ==> searches.distances.value.Keys <= VectorFile(s.files, scope, profile).Keys)
  }

  function Similarity(distance: real): real {
    if distance < 1.0 then 1.0 - distance else 0.0
  }

  function Similarities(distances: map<nat, real>): map<nat, real> {
    map k | k in distances :: Similarity(distances[k])
  }

  /** Each search is asked for four times as many candidates as the caller wants. */
  function Widened(limit: nat): nat {
    if limit * 4 <= U64_MAX then limit * 4 else if limit > U64_MAX then limit else U64_MAX
  }

  /**
   * A graph search at two hops: half a point for a chunk one step away from the query, a quarter for one
   * two steps away, told on the live texts. None is missing unless the limit or the edge budget ran out.
   */
  ghost predicate GraphFound(s: Store, scope: Scope, query: string, limit: nat, graphs: map<Uuid, real>,
                             traversed: nat)
    requires UniqueIds(s.chunks)
  {
    && |graphs| <= limit && traversed <= 128
    && (forall i :: i in graphs ==> HopScore(Live(s, scope), query, i, graphs[i]))
    && (traversed < 128 && |graphs| < limit ==>
          forall i :: HopsAway(Live(s, scope), query, i, 1) || HopsAway(Live(s, scope), query, i, 2) ==> i in graphs)
  }

  ghost predicate HopScore(live: map<Uuid, string>, query: string, chunk: Uuid, score: real) {
    || (HopsAway(live, query, chunk, 1) && score == 0.5)
    || (HopsAway(live, query, chunk, 2) && score == 0.25)
  }

  method SearchGraph(s: Store, scope: Scope, query: string, limit: nat)
    returns (graphs: map<Uuid, real>, ghost traversed: nat)
    requires StoreValid(s)
    ensures UniqueIds(s.chunks) && GraphFound(s, scope, query, limit, graphs, traversed)
    ensures forall i :: i in graphs ==> i in Live(s, scope)
  {
    hide StoreValid, KeysMatch, Poses, Sound, LiveIn, UniqueIds, EvidencedWithin, Offered, GraphSearch.OnceEach,
         Descending, GraphFound, ScoresListed;
    GraphKeysMatch(s);
    var candidates, p, found, edges := GraphCandidates(s.graph, scope, query, limit, 2);
    traversed := edges;
    CandidatesAreLive(s, scope, query, 2, p, found);
    graphs := ScoresByChunk(candidates);
    ListedAreFound(candidates, graphs, found);
    SearchFound(s, scope, query, limit, p, found, candidates, graphs, traversed);
  }

  ghost predicate ScoresListed(candidates: seq<Candidate>, graphs: map<Uuid, real>) {
    && |graphs| == |candidates|
    && (forall c :: c in candidates ==> c.chunkId in graphs && graphs[c.chunkId] == c.score)
    && (forall i :: i in graphs ==> exists c :: c in candidates && c.chunkId == i)
  }

  method ScoresByChunk(candidates: seq<Candidate>) returns (graphs: map<Uuid, real>)
    requires GraphSearch.OnceEach(candidates)
    ensures ScoresListed(candidates, graphs)
  {
    graphs := map[];
    for n := 0 to |candidates|
      invariant ScoresListed(candidates[..n], graphs)
    {
      assert candidates[..n + 1] == candidates[..n] + [candidates[n]];
      NotYetMet(candidates, n);
      graphs := graphs[candidates[n].chunkId := candidates[n].score];
    }
    assert candidates[..|candidates|] == candidates;
  }

  lemma NotYetMet(candidates: seq<Candidate>, n: nat)
    requires GraphSearch.OnceEach(candidates) && n < |candidates|
    ensures forall c :: c in candidates[..n] ==> c.chunkId != candidates[n].chunkId
  {
  }

  lemma ListedAreFound(candidates: seq<Candidate>, graphs: map<Uuid, real>, found: map<Uuid, Candidate>)
    requires ScoresListed(candidates, graphs)
    requires forall c :: c in candidates ==> c.chunkId in found && found[c.chunkId] == c
    ensures forall i :: i in graphs ==> i in found && graphs[i] == found[i].score
  {
  }

  lemma SearchFound(s: Store, scope: Scope, query: string, limit: nat, p: Problem, found: map<Uuid, Candidate>,
                    candidates: seq<Candidate>, graphs: map<Uuid, real>, traversed: nat)
    requires StoreValid(s) && Poses(s.graph, scope, query, 2, p) && Sound(p, found) && UniqueIds(s.chunks)
    requires p.confidence == 0.5 && p.maxHops == 2 && traversed <= 128
    requires |candidates| <= limit && ScoresListed(candidates, graphs)
    requires forall i :: i in graphs ==> i in found && graphs[i] == found[i].score
    requires traversed < 128 ==>
               forall i :: EvidencedWithin(p.edges, p.evidence, p.seeds, i, 1) ==>
                 i in found && Offered(candidates, limit, found[i])
    ensures GraphFound(s, scope, query, limit, graphs, traversed)
  {
    hide StoreValid, Poses, LiveIn, UniqueIds, EvidencedWithin, HopScore, HopsAway, Sound;
    forall i | i in graphs
      ensures HopScore(Live(s, scope), query, i, graphs[i])
    {
      CandidateScore(s, scope, query, p, found, i);
    }
    if traversed < 128 && |graphs| < limit {
      forall i | HopsAway(Live(s, scope), query, i, 1) || HopsAway(Live(s, scope), query, i, 2)
        ensures i in graphs
      {
        NearIsEvidenced(s, scope, query, p, i);
        CandidateNamesItself(p, found, i);
      }
    }
  }

  lemma CandidateNamesItself(p: Problem, found: map<Uuid, Candidate>, i: Uuid)
    requires Sound(p, found)
    ensures i in found ==> found[i].chunkId == i
  {
  }

  lemma CandidateScore(s: Store, scope: Scope, query: string, p: Problem, found: map<Uuid, Candidate>, chunk: Uuid)
    requires StoreValid(s) && Poses(s.graph, scope, query, 2, p) && Sound(p, found) && chunk in found
    requires p.confidence == 0.5 && p.maxHops == 2
    ensures UniqueIds(s.chunks) && found[chunk].chunkId == chunk
    ensures HopScore(Live(s, scope), query, chunk, found[chunk].score)
  {
    hide StoreValid, Poses, LiveIn, UniqueIds, ExactHops, HopsAway;
    HopsAreTextual(s, scope, query, 2, p, chunk, found[chunk].hops);
    assert found[chunk].hops == 1 || found[chunk].hops == 2;
  }

  lemma NearIsEvidenced(s: Store, scope: Scope, query: string, p: Problem, chunk: Uuid)
    requires StoreValid(s) && Poses(s.graph, scope, query, 2, p) && UniqueIds(s.chunks)
    requires HopsAway(Live(s, scope), query, chunk, 1) || HopsAway(Live(s, scope), query, chunk, 2)
    ensures EvidencedWithin(p.edges, p.evidence, p.seeds, chunk, 1)
  {
    hide StoreValid, Poses, LiveIn, UniqueIds, RelatesNear;
    EvidenceIsTextual(s, scope, query, 2, p, chunk, 0);
    EvidenceIsTextual(s, scope, query, 2, p, chunk, 1);
    if EvidencedWithin(p.edges, p.evidence, p.seeds, chunk, 0) { WithinGrows(p.edges, p.seeds, 0, 1); }
  }

  lemma GraphKeysMatch(s: Store)
    requires StoreValid(s)
    ensures KeysMatch(s.graph)
  {
    hide RecordsValid, VectorsPublished, TextsPublished, VectorFilesSound, KeysMatch, RowsOf, GraphFrom;
  }

  // ------------------------------------------------- what the indexes have to do with the hits

  /** No text or graph candidate is lost, and every score was earned by the content that is returned. */
  ghost predicate AnswersFromIndexes(s: Store, scope: Scope, profile: Profile, found: Found, all: seq<Hit>) {
    && (forall i :: i in found.texts || i in found.graphs ==> HasHit(all, i))
    && (forall h :: h in all ==> EarnedByContent(s, scope, profile, h))
  }

  ghost predicate EarnedByContent(s: Store, scope: Scope, profile: Profile, h: Hit) {
    var i := h.chunk.id;
    && (h.lexical.Some? ==> i in ActiveIndex(s, scope) && ActiveIndex(s, scope)[i] == h.chunk.content)
    && (h.vector.Some? ==>
          && i in s.vectors.manifests && s.vectors.manifests[i].annKey in VectorFile(s.files, scope, profile)
          && VectorFile(s.files, scope, profile)[s.vectors.manifests[i].annKey] == h.chunk.content)
  }

  lemma ActiveIndexIsLive(s: Store, scope: Scope)
    requires StoreValid(s)
    ensures UniqueIds(s.chunks) && ActiveIndex(s, scope) == Live(s, scope)
  {
    hide RecordsValid, VectorsPublished, GraphPublished, VectorFilesSound, LiveIn, UniqueIds;
    ValidRecords(s);
    RecordsAreUnique(s);
    assert TextExact(s.texts.active, s.files.texts, scope, Live(s, scope));
  }

  lemma HitIsEarned(s: Store, scope: Scope, profile: Profile, found: Found, h: Hit)
    requires StoreValid(s) && UniqueIds(s.chunks) && IsHit(s, scope, profile, found, h)
    requires ActiveIndex(s, scope) == Live(s, scope)
    ensures EarnedByContent(s, scope, profile, h)
  {
    hide StoreValid, LiveIn, UniqueIds, ActiveIndex, IsFound;
    if h.vector.Some? { LiveKeyIsPublished(s, scope, profile, h.chunk.id); }
  }

  lemma LiveKeyIsPublished(s: Store, scope: Scope, profile: Profile, i: Uuid)
    requires StoreValid(s) && UniqueIds(s.chunks) && i in Live(s, scope)
    requires i in s.vectors.manifests && s.vectors.manifests[i].profile == profile
    ensures var file := VectorFile(s.files, scope, profile);
      s.vectors.manifests[i].annKey in file && file[s.vectors.manifests[i].annKey] == Live(s, scope)[i]
  {
    hide RecordsValid, TextsPublished, GraphPublished, VectorFilesSound, LiveIn, UniqueIds, UniqueKeys, KeyedBy;
    ValidRecords(s);
    RecordsAreUnique(s);
    LiveScope(s, scope, i);
    LiveKeyEntry(s, scope, profile, i);
    assert Contains(VectorFile(s.files, scope, profile), LiveKeys(s, scope, profile));
  }

  lemma LiveScope(s: Store, scope: Scope, i: Uuid)
    requires RecordsValid(s) && UniqueIds(s.chunks) && i in Live(s, scope) && i in s.vectors.manifests
    ensures s.vectors.manifests[i].scope == scope
  {
    hide IntakeValid, SucceededComplete, KeysAllocated, UniqueKeys, UniqueIds, LiveIn, ManifestsExact, RowsMatch,
         ManifestsAgree;
    var k := LiveOrigin(s.intake.documents, s.chunks, scope, i);
    RowFacts(s, scope, k);
  }

  lemma LiveKeyEntry(s: Store, scope: Scope, profile: Profile, i: Uuid)
    requires UniqueIds(s.chunks) && UniqueKeys(s.vectors.manifests) && i in Live(s, scope)
    requires i in s.vectors.manifests && s.vectors.manifests[i].profile == profile
             && s.vectors.manifests[i].scope == scope
    ensures s.vectors.manifests[i].annKey in LiveKeys(s, scope, profile)
    ensures LiveKeys(s, scope, profile)[s.vectors.manifests[i].annKey] == Live(s, scope)[i]
  {
    hide LiveIn, UniqueIds;
  }

  lemma HitsAnswer(s: Store, scope: Scope, profile: Profile, searches: Searches, found: Found, all: seq<Hit>)
    requires StoreValid(s) && FromIndexes(s, scope, profile, searches) && UniqueIds(s.chunks)
    requires found.texts == map[] || (searches.texts.Ok? && found.texts == searches.texts.value)
    requires forall i :: i in found.graphs ==> i in Live(s, scope)
    requires AreTheHits(s, scope, profile, found, all)
    ensures AnswersFromIndexes(s, scope, profile, found, all)
  {
    hide StoreValid, LiveIn, UniqueIds, ActiveIndex, IsHit, HasHit, EarnedByContent;
    ActiveIndexIsLive(s, scope);
    forall h | h in all
      ensures EarnedByContent(s, scope, profile, h)
    {
      HitIsEarned(s, scope, profile, found, h);
    }
  }

  /** How an answer came about: the candidates, the edges that the graph search used, all hits ranked, the divisor. */
  datatype Trace = Trace(found: Found, traversed: nat, all: seq<Hit>, maxLexical: real) {
    function Head(limit: nat): seq<Hit> {
      if |all| <= limit then all else all[..limit]
    }
  }

  predicate SearchFails(s: Store, scope: Scope, searches: Searches) {
    (HasGeneration(s, scope) && searches.texts.Err?) || searches.distances.Err?
  }

  /** The candidates are what the three searches returned. */
  ghost predicate Searched(s: Store, scope: Scope, query: string, searches: Searches, limit: nat, trace: Trace)
    requires UniqueIds(s.chunks)
  {
    && !SearchFails(s, scope, searches)
    && trace.found.texts == (if HasGeneration(s, scope) then searches.texts.value else map[])
    && trace.found.vectors == Similarities(searches.distances.value)
    && GraphFound(s, scope, query, Widened(limit), trace.found.graphs, trace.traversed)
  }

  /** One hit for each live chunk that was found, best first. */
  ghost predicate IsRanking(s: Store, scope: Scope, profile: Profile, trace: Trace)
    requires UniqueIds(s.chunks)
  {
    && AreTheHits(s, scope, profile, trace.found, trace.all) && Distinct(trace.all)
    && IsMaxLexical(trace.all, trace.maxLexical)
    && SortedBy(trace.all, (a, b) => NotAfter(a, b, trace.maxLexical))
  }

  lemma RankingHasHits(s: Store, scope: Scope, profile: Profile, trace: Trace)
    requires UniqueIds(s.chunks) && IsRanking(s, scope, profile, trace)
    ensures AreTheHits(s, scope, profile, trace.found, trace.all)
  {
  }

  /**
   * `retrieve_chunks`. It fails on a blank query or a failing search. Otherwise `all` has exactly one
   * hit for each live chunk that a search found, ranked, and `r` is its head: the manifest checks
   * drop no live chunk and let no other through, every text and graph candidate becomes a hit, and
   * text and vector scores belong to the content that is returned with them.
   */
  method RetrieveChunks(s: Store, scope: Scope, profile: Profile, query: string, searches: Searches, limit: nat)
    returns (r: Result<seq<Hit>>, ghost trace: Trace)
    requires StoreValid(s) && FromIndexes(s, scope, profile, searches)
    ensures r.Err? <==> Chunker.IsBlank(query) || SearchFails(s, scope, searches)
    ensures r.Err? ==> r.error == if Chunker.IsBlank(query) then EmptyQuery else SearchFailed
    ensures r.Ok? ==>
              && UniqueIds(s.chunks) && Searched(s, scope, query, searches, limit, trace)
              && IsRanking(s, scope, profile, trace)
              && AnswersFromIndexes(s, scope, profile, trace.found, trace.all)
              && r.value == trace.Head(limit)
              && (|r.value| < limit ==> AreTheHits(s, scope, profile, trace.found, r.value))
  {
    hide StoreValid, UniqueIds, IsRanking, AreTheHits, Chunker.IsBlank, GraphFound, AnswersFromIndexes, FromIndexes,
         Similarities, HasGeneration, Widened;
    trace := Trace(Found(map[], map[], map[]), 0, [], 0.0);
    if Chunker.IsBlank(query) { return Err(EmptyQuery), trace; }
    var texts := map[];
    if HasGeneration(s, scope) {
      if searches.texts.Err? { return Err(SearchFailed), trace; }
      texts := searches.texts.value;
    }
    if searches.distances.Err? { return Err(SearchFailed), trace; }
    var graphs, traversed := SearchGraph(s, scope, query, Widened(limit));
    var found := Found(texts, Similarities(searches.distances.value), graphs);
    var ranked, maxLexical := JoinAndRank(s, scope, profile, found);
    trace := Trace(found, traversed, ranked, maxLexical);
    RankingHasHits(s, scope, profile, trace);
    HitsAnswer(s, scope, profile, searches, found, ranked);
    r := Ok(if |ranked| <= limit then ranked else ranked[..limit]);
  }

  /** Join, normalise and sort. */
  method JoinAndRank(s: Store, scope: Scope, profile: Profile, found: Found) returns (all: seq<Hit>, maxLexical: real)
    requires StoreValid(s)
    ensures UniqueIds(s.chunks)
    ensures forall p :: IsRanking(s, scope, profile, Trace(found, p, all, maxLexical))
  {
    hide StoreValid, RecordsValid, UniqueIds, AreTheHits, Distinct, IsMaxLexical, SortedBy, IsTotalPreorder,
         SameElements;
    ValidRecords(s);
    RecordsAreUnique(s);
    var joined := JoinRows(s, scope, profile, found);
    maxLexical := MaxLexical(joined);
    NotAfterOrders(maxLexical);
    var m := maxLexical;
    all := SortBy(joined, (a, b) => NotAfter(a, b, m));
    Reordered(s, scope, profile, found, joined, all, maxLexical);
  }

  lemma Reordered(s: Store, scope: Scope, profile: Profile, found: Found, joined: seq<Hit>, ranked: seq<Hit>, m: real)
    requires UniqueIds(s.chunks) && SameElements(ranked, joined)
    requires AreTheHits(s, scope, profile, found, joined) && IsMaxLexical(joined, m)
    ensures AreTheHits(s, scope, profile, found, ranked) && IsMaxLexical(ranked, m)
  {
    hide IsHit, IsFound, LiveIn, UniqueIds;
    forall i | HasHit(joined, i)
      ensures HasHit(ranked, i)
    {
      var h :| h in joined && h.chunk.id == i;
      assert h in ranked;
    }
  }
}
