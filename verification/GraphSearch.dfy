/** `graph_candidates` around its search: seeds from the query, tables in, ranked candidates out. */
module GraphSearch {
  import opened Basics
  import opened GraphTypes
  import opened Extractor
  import opened GraphProjection
  import opened GraphTraversal
  import opened StoreTypes
  import opened StoreSpec
  import opened PublishProofs
  import opened Sorting

  const GRAPH_MAX_HOPS := 3
  const GRAPH_MAX_TRAVERSED_EDGES := 128

  function ClampHops(maxHops: nat): nat {
    if maxHops < 1 then 1 else if maxHops > GRAPH_MAX_HOPS then GRAPH_MAX_HOPS else maxHops
  }

  /** Some evidence row links the edge to the chunk. */
  ghost predicate HasEvidence(evidence: map<EvidenceKey, Evidence>, edge: EdgeId, chunk: Uuid) {
    exists x :: x in evidence && evidence[x].edgeId == edge && evidence[x].chunkId == chunk
  }

  ghost predicate ListsEdges(graph: Graph, scope: Scope, edges: seq<Edge>) {
    forall e :: e in edges <==> e.id in graph.edges && graph.edges[e.id] == e && e.scope == scope
  }

  ghost predicate GroupsEvidence(graph: Graph, edges: seq<Edge>, grouped: map<EdgeId, seq<Uuid>>) {
    forall e, chunk :: e in edges ==> (Shows(grouped, e, chunk) <==> HasEvidence(graph.evidence, e.id, chunk))
  }

  /** The search problem a query poses over the tables of one workspace. */
  ghost predicate Poses(graph: Graph, scope: Scope, query: string, maxHops: nat, p: Problem) {
    && ListsEdges(graph, scope, p.edges) && GroupsEvidence(graph, p.edges, p.evidence)
    && p.seeds == SeedsOf(graph, scope, query)
    && p.maxHops == ClampHops(maxHops) && p.confidence == CONFIDENCE
  }

  function SeedsOf(graph: Graph, scope: Scope, query: string): set<EntityId> {
    set n | n in QueryTerms(query) && EntityId(scope, n) in graph.entities :: EntityId(scope, n)
  }

  // ------------------------------------------------- reading the tables

  method ScopedEdgeList(graph: Graph, scope: Scope) returns (edges: seq<Edge>)
    requires KeysMatch(graph)
    ensures ListsEdges(graph, scope, edges) && forall e :: e in edges ==> e.confidence == CONFIDENCE
  {
    var pending := graph.edges.Keys;
    edges := [];
    while pending != {}
      invariant pending <= graph.edges.Keys
      invariant forall e :: e in edges <==>
                  (e.id in graph.edges && e.id !in pending && graph.edges[e.id] == e && e.scope == scope)
    {
      var k :| k in pending;
      pending := pending - {k};
      if graph.edges[k].scope == scope { edges := edges + [graph.edges[k]]; }
    }
  }

  method GroupEvidence(graph: Graph, edges: seq<Edge>) returns (grouped: map<EdgeId, seq<Uuid>>)
    ensures GroupsEvidence(graph, edges, grouped)
  {
    hide Shows, HasEvidence, PushRow;
    var known := set e | e in edges :: e.id;
    assert forall e :: e in edges ==> e.id in known;
    var pending := graph.evidence.Keys;
    grouped := map[];
    NothingShown();
    NoRows(graph.evidence);
    while pending != {}
      invariant pending <= graph.evidence.Keys
      invariant forall e, chunk :: e in edges ==>
                  (Shows(grouped, e, chunk) <==> HasEvidence(graph.evidence - pending, e.id, chunk))
    {
      var x :| x in pending;
      var row := graph.evidence[x];
      OneMoreRow(graph.evidence, pending, x);
      pending := pending - {x};
      if row.edgeId in known {
        AppendShows(grouped, row.edgeId, row.chunkId);
        grouped := PushRow(grouped, row.edgeId, row.chunkId);
      } else {
        assert forall e :: e in edges ==> e.id != row.edgeId;
      }
    }
    assert graph.evidence - {} == graph.evidence;
  }

  lemma NothingShown()
    ensures forall e, chunk :: !Shows(map[], e, chunk)
  {
  }

  lemma NoRows(evidence: map<EvidenceKey, Evidence>)
    ensures forall edge, chunk :: !HasEvidence(evidence - evidence.Keys, edge, chunk)
  {
  }

  /** `grouped.entry(id).or_default().push(chunk)`. */
  function PushRow(grouped: map<EdgeId, seq<Uuid>>, id: EdgeId, chunk: Uuid): map<EdgeId, seq<Uuid>> {
    grouped[id := (if id in grouped then grouped[id] else []) + [chunk]]
  }

  lemma AppendShows(grouped: map<EdgeId, seq<Uuid>>, id: EdgeId, chunk: Uuid)
    ensures forall e, c :: Shows(PushRow(grouped, id, chunk), e, c) <==>
              Shows(grouped, e, c) || (e.id == id && c == chunk)
  {
    var rows := if id in grouped then grouped[id] else [];
    forall e: Edge, c
      ensures Shows(PushRow(grouped, id, chunk), e, c) <==> Shows(grouped, e, c) || (e.id == id && c == chunk)
    {
      if e.id == id { assert c in rows + [chunk] <==> c in rows || c == chunk; }
    }
  }

  lemma OneMoreRow(evidence: map<EvidenceKey, Evidence>, pending: set<EvidenceKey>, x: EvidenceKey)
    requires x in pending && x in evidence
    ensures forall edge, chunk :: HasEvidence(evidence - (pending - {x}), edge, chunk) <==>
              HasEvidence(evidence - pending, edge, chunk)
              || (edge == evidence[x].edgeId && chunk == evidence[x].chunkId)
  {
    forall edge, chunk
      ensures HasEvidence(evidence - (pending - {x}), edge, chunk) <==>
              HasEvidence(evidence - pending, edge, chunk)
              || (edge == evidence[x].edgeId && chunk == evidence[x].chunkId)
    {
      var before, after := evidence - pending, evidence - (pending - {x});
      assert x in after && after[x] == evidence[x];
      if HasEvidence(before, edge, chunk) {
        var y :| y in before && before[y].edgeId == edge && before[y].chunkId == chunk;
        assert y in after && after[y] == before[y];
      }
      if HasEvidence(after, edge, chunk) {
        var y :| y in after && after[y].edgeId == edge && after[y].chunkId == chunk;
        assert y == x || (y in before && before[y] == after[y]);
      }
    }
  }

  method SeedList(graph: Graph, scope: Scope, query: string) returns (seeds: seq<EntityId>)
    ensures forall v :: v in SeedsOf(graph, scope, query) <==> v in seeds
    ensures forall i, j :: 0 <= i < j < |seeds| ==> seeds[i] != seeds[j]
  {
    var pending := SeedsOf(graph, scope, query);
    seeds := [];
    while pending != {}
      invariant pending <= SeedsOf(graph, scope, query)
      invariant forall v :: v in seeds <==> v in SeedsOf(graph, scope, query) && v !in pending
      invariant forall i, j :: 0 <= i < j < |seeds| ==> seeds[i] != seeds[j]
    {
      var v :| v in pending;
      pending := pending - {v};
      seeds := seeds + [v];
    }
  }

  // ------------------------------------------------- ranking the candidates

  /** Higher scores first, equal ones in the order of chunk ids. */
  predicate Outranks(a: Candidate, b: Candidate) {
    a.score > b.score || (a.score == b.score && a.chunkId < b.chunkId)
  }

  predicate Descending(r: seq<Candidate>) {
    forall i, j :: 0 <= i < j < |r| ==> Outranks(r[i], r[j])
  }

  ghost predicate OnceEach(r: seq<Candidate>) {
    forall i, j :: 0 <= i < j < |r| ==> r[i].chunkId != r[j].chunkId
  }

  predicate NotWorse(a: Candidate, b: Candidate) {
    a.score >= b.score
  }

  /** The values of the candidate map, sorted by score. */
  method RankCandidates(found: map<Uuid, Candidate>) returns (r: seq<Candidate>)
    requires forall chunk :: chunk in found ==> found[chunk].chunkId == chunk
    ensures Descending(r) && OnceEach(r)
    ensures forall c :: c in r <==> c.chunkId in found && found[c.chunkId] == c
  {
    hide InOrder, Ascending, IsTotalPreorder, SortedBy, Distinct, NotWorse, Descending, OnceEach, Stable, Precedes;
    var keys := InOrder(found.Keys);
    var values := seq(|keys|, i requires 0 <= i < |keys| => found[keys[i]]);
    ValuesOf(found, keys, values);
    NotWorseOrders();
    r := SortBy(values, NotWorse);
    InChunkOrder(found, keys, values);
    SortedOnce(found, values, r);
  }

  lemma NotWorseOrders()
    ensures IsTotalPreorder(NotWorse)
  {
  }

  lemma ValuesOf(found: map<Uuid, Candidate>, keys: seq<Uuid>, values: seq<Candidate>)
    requires forall chunk :: chunk in found ==> found[chunk].chunkId == chunk
    requires |values| == |keys| && (forall k :: k in keys <==> k in found) && Ascending(keys)
    requires forall i :: 0 <= i < |keys| ==> keys[i] in found && values[i] == found[keys[i]]
    ensures Distinct(values)
    ensures forall c :: c in values <==> c.chunkId in found && found[c.chunkId] == c
  {
    forall c: Candidate | c.chunkId in found && found[c.chunkId] == c
      ensures c in values
    {
      var i :| 0 <= i < |keys| && keys[i] == c.chunkId;
      assert values[i] == c;
    }
  }

  lemma InChunkOrder(found: map<Uuid, Candidate>, keys: seq<Uuid>, values: seq<Candidate>)
    requires forall chunk :: chunk in found ==> found[chunk].chunkId == chunk
    requires |values| == |keys| && Ascending(keys)
    requires forall i :: 0 <= i < |keys| ==> keys[i] in found && values[i] == found[keys[i]]
    ensures forall a, b :: Precedes(values, a, b) ==> a.chunkId < b.chunkId
  {
    assert forall i, j :: 0 <= i < j < |keys| ==> values[i].chunkId < values[j].chunkId;
  }

  lemma SortedOnce(found: map<Uuid, Candidate>, values: seq<Candidate>, r: seq<Candidate>)
    requires SortedBy(r, NotWorse) && Distinct(r) && Stable(r, values, NotWorse)
    requires forall a, b :: Precedes(values, a, b) ==> a.chunkId < b.chunkId
    requires forall c :: c in r <==> c.chunkId in found && found[c.chunkId] == c
    ensures Descending(r) && OnceEach(r)
  {
    hide Precedes;
    forall i, j | 0 <= i < j < |r|
      ensures Outranks(r[i], r[j])
    {
      assert NotWorse(r[i], r[j]);
      if NotWorse(r[j], r[i]) { assert Precedes(values, r[i], r[j]); }
    }
    assert forall i :: 0 <= i < |r| ==> r[i] in r;
  }

  lemma NothingRanked()
    ensures Descending([]) && OnceEach([])
  {
  }

  // ------------------------------------------------- the whole query

  /** The candidate is in the result, or the result is full of candidates that outrank it. */
  ghost predicate Offered(r: seq<Candidate>, limit: nat, c: Candidate) {
    c in r || (|r| == limit && forall d :: d in r ==> Outranks(d, c))
  }

  /**
   * `graph_candidates`. Every result carries the exact distance of its chunk and is ranked by it. If
   * the edge budget was not spent, every chunk within reach is offered.
   */
  method GraphCandidates(graph: Graph, scope: Scope, query: string, limit: nat, maxHops: nat)
    returns (r: seq<Candidate>, ghost p: Problem, ghost found: map<Uuid, Candidate>, ghost traversed: nat)
    requires KeysMatch(graph)
    ensures Poses(graph, scope, query, maxHops, p) && p.confidence == 0.5
    ensures if maxHops < 1 then p.maxHops == 1 else if maxHops > 3 then p.maxHops == 3 else p.maxHops == maxHops
    ensures |r| <= limit && Descending(r) && OnceEach(r)
    ensures Sound(p, found) && forall c :: c in r ==> c.chunkId in found && found[c.chunkId] == c
    ensures traversed <= 128
    ensures traversed < 128 ==>
              forall chunk :: EvidencedWithin(p.edges, p.evidence, p.seeds, chunk, p.maxHops - 1) ==>
                chunk in found && Offered(r, limit, found[chunk])
  {
    hide Poses, KeysMatch, Sound, Exact, EnteredOnce, EvidencedWithin, Descending, OnceEach, SeedsOf, Offered,
         QueryTerms;
    var problem := PoseProblem(graph, scope, query, maxHops);
    p := problem;
    if QueryTerms(query) == {} {
      found, traversed, r := map[], 0, [];
      NothingRanked();
      NoTermsNoSeeds(graph, scope, query);
      NothingFound(p, p.maxHops - 1);
      return;
    }
    var seeds := SeedList(graph, scope, query);
    var search, count := Traverse(problem, seeds, GRAPH_MAX_TRAVERSED_EDGES);
    found, traversed := search.candidates, count;
    SoundKeys(p, found);
    r := TopCandidates(search.candidates, limit);
  }

  /** Edges and evidence of the workspace, the seeds of the query, and the clamped number of hops. */
  method PoseProblem(graph: Graph, scope: Scope, query: string, maxHops: nat) returns (p: Problem)
    requires KeysMatch(graph)
    ensures Poses(graph, scope, query, maxHops, p) && p.Valid() && p.confidence == 0.5
    ensures p.seeds == SeedsOf(graph, scope, query)
    ensures if maxHops < 1 then p.maxHops == 1 else if maxHops > 3 then p.maxHops == 3 else p.maxHops == maxHops
  {
    hide ListsEdges, GroupsEvidence, KeysMatch, SeedsOf;
    var edges := ScopedEdgeList(graph, scope);
    var evidence := GroupEvidence(graph, edges);
    p := Problem(edges, evidence, SeedsOf(graph, scope, query), ClampHops(maxHops), CONFIDENCE);
  }

  /** The best candidates, as many as the limit allows. */
  method TopCandidates(found: map<Uuid, Candidate>, limit: nat) returns (r: seq<Candidate>)
    requires forall chunk :: chunk in found ==> found[chunk].chunkId == chunk
    ensures |r| <= limit && Descending(r) && OnceEach(r)
    ensures forall c :: c in r ==> c.chunkId in found && found[c.chunkId] == c
    ensures forall chunk :: chunk in found ==> Offered(r, limit, found[chunk])
  {
    hide Descending, OnceEach, Offered;
    var ranked := RankCandidates(found);
    r := if |ranked| <= limit then ranked else ranked[..limit];
    TopOffered(ranked, limit);
  }

  lemma SoundKeys(p: Problem, found: map<Uuid, Candidate>)
    requires Sound(p, found)
    ensures forall chunk :: chunk in found ==> found[chunk].chunkId == chunk
  {
  }

  lemma TopOffered(ranked: seq<Candidate>, limit: nat)
    requires Descending(ranked) && OnceEach(ranked)
    ensures var r := if |ranked| <= limit then ranked else ranked[..limit];
      && Descending(r) && OnceEach(r) && (forall c :: c in r ==> c in ranked)
      && forall c :: c in ranked ==> Offered(r, limit, c)
  {
  }

  lemma {:induction false} NothingNear(edges: seq<Edge>, n: nat)
    ensures Within(edges, {}, n) == {}
  {
    if n > 0 { NothingNear(edges, n - 1); }
  }

  lemma NoTermsNoSeeds(graph: Graph, scope: Scope, query: string)
    requires QueryTerms(query) == {}
    ensures SeedsOf(graph, scope, query) == {}
  {
  }

  lemma NothingFound(p: Problem, n: nat)
    requires p.seeds == {}
    ensures Sound(p, map[])
    ensures forall chunk :: !EvidencedWithin(p.edges, p.evidence, p.seeds, chunk, n)
  {
    hide Within, ExactHops, Shows;
    NothingNear(p.edges, n);
  }

  // ------------------------------------------------- what the tables stand for

  /**
   * In every reachable state the tables a query searches are spelled by the live texts alone: an
   * edge is evidenced by a chunk exactly when that live chunk names both its ends.
   */
  lemma SearchesLiveText(s: Store, scope: Scope, query: string, maxHops: nat, p: Problem)
    requires StoreValid(s) && Poses(s.graph, scope, query, maxHops, p)
    ensures forall e, chunk :: e in p.edges ==>
              (Shows(p.evidence, e, chunk) <==>
               chunk in Live(s, scope) && e.id in RelatedBy(scope, Relations(Live(s, scope)[chunk])))
    ensures forall v :: v in p.seeds <==>
              v.scope == scope && v.name in QueryTerms(query) && v.name in NamesIn(Live(s, scope))
  {
    hide RecordsValid, VectorsPublished, TextsPublished, VectorFilesSound, LiveIn, Relations, RelatedBy, NamesIn,
         RelatedIn, QueryTerms, Shows, HasEvidence;
    assert UniqueIds(s.chunks) by { ValidIsUnique(s); }
    var live := Live(s, scope);
    assert RowsOf(s.graph, scope) == GraphFrom(scope, live);
    forall e, chunk | e in p.edges
      ensures Shows(p.evidence, e, chunk) <==> chunk in live && e.id in RelatedBy(scope, Relations(live[chunk]))
    {
      assert e.id.scope == scope;
      EvidenceIsLive(s.graph, scope, live, e.id, chunk);
    }
    forall n
      ensures EntityId(scope, n) in s.graph.entities <==> n in NamesIn(live)
    {
      EntityIsNamed(s.graph, scope, live, n);
    }
  }

  /** Whatever the search offers is a live chunk: the graph never leads to text that is not retrievable. */
  lemma CandidatesAreLive(s: Store, scope: Scope, query: string, maxHops: nat, p: Problem, found: map<Uuid, Candidate>)
    requires StoreValid(s) && Poses(s.graph, scope, query, maxHops, p) && Sound(p, found)
    ensures UniqueIds(s.chunks) && forall chunk :: chunk in found ==> chunk in Live(s, scope)
  {
    hide StoreValid, Poses, LiveIn, Relations, RelatedBy, NamesIn, QueryTerms, Shows, ExactHops, UniqueIds;
    ValidIsUnique(s);
    SearchesLiveText(s, scope, query, maxHops, p);
    forall chunk | chunk in found
      ensures chunk in Live(s, scope)
    {
      var e :| e in p.edges && e.id == found[chunk].edgeId && Shows(p.evidence, e, chunk);
    }
  }

  lemma EvidenceIsLive(g: Graph, scope: Scope, live: map<Uuid, string>, edge: EdgeId, chunk: Uuid)
    requires KeysMatch(g) && EvidenceOf(g.evidence, scope) == ShownIn(scope, live) && edge.scope == scope
    ensures HasEvidence(g.evidence, edge, chunk) <==> chunk in live && edge in RelatedBy(scope, Relations(live[chunk]))
  {
    hide RelatedBy, Relations;
    var shown := ShownIn(scope, live);
    if HasEvidence(g.evidence, edge, chunk) {
      var x :| x in g.evidence && g.evidence[x].edgeId == edge && g.evidence[x].chunkId == chunk;
      assert x in EvidenceOf(g.evidence, scope);
      assert x in shown && shown[x] == g.evidence[x];
    }
    if chunk in live && edge in RelatedBy(scope, Relations(live[chunk])) {
      var x := EvidenceKey(edge, chunk);
      assert x in shown;
      assert x in EvidenceOf(g.evidence, scope);
    }
  }

  lemma EntityIsNamed(g: Graph, scope: Scope, live: map<Uuid, string>, n: string)
    requires EntityIds(g.entities, scope) == EntitiesNamed(scope, NamesIn(live))
    ensures EntityId(scope, n) in g.entities <==> n in NamesIn(live)
  {
    hide NamesIn;
    assert EntityId(scope, n) in EntityIds(g.entities, scope) <==> EntityId(scope, n) in g.entities;
  }
}
