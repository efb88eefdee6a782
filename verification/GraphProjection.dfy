/** The graph tables of every workspace: kept up incrementally, cleared and rebuilt per workspace. */
module GraphProjection {
  import opened Basics
  import opened GraphTypes
  import opened Extractor

  datatype Chunk = Chunk(id: Uuid, documentId: Uuid, ordinal: nat, content: string)

  /** Key of the two adjacency tables: scope, endpoint and edge. */
  datatype Adjacency = Adjacency(scope: Scope, entity: EntityId, edge: EdgeId)

  datatype EvidenceKey = EvidenceKey(edge: EdgeId, chunk: Uuid)

  datatype Graph = Graph(entities: map<EntityId, Entity>, edges: map<EdgeId, Edge>,
                         bySource: map<Adjacency, EdgeId>, byTarget: map<Adjacency, EdgeId>,
                         evidence: map<EvidenceKey, Evidence>)

  const EMPTY := Graph(map[], map[], map[], map[], map[])

  // ------------------------------------------- what one call writes

  function EdgeIdOf(scope: Scope, r: RelationCandidate): EdgeId {
    EdgeId(scope, EntityId(scope, r.source), EntityId(scope, r.target), r.relation)
  }

  function AddEntity(g: Graph, scope: Scope, e: EntityCandidate): Graph {
    var id := EntityId(scope, e.normalizedName);
    if id in g.entities then g
    else g.(entities := g.entities[id := Entity(id, scope, e.normalizedName, e.displayName)])
  }

  function AddEntities(g: Graph, scope: Scope, es: seq<EntityCandidate>): Graph
    decreases |es|
  {
    if es == [] then g else AddEntities(AddEntity(g, scope, es[0]), scope, es[1..])
  }

  function AddEdge(g: Graph, id: EdgeId, confidence: real): Graph {
    if id in g.edges then g
    else g.(edges := g.edges[id := Edge(id, id.scope, id.source, id.target, id.relation, confidence)],
            bySource := g.bySource[Adjacency(id.scope, id.source, id) := id],
            byTarget := g.byTarget[Adjacency(id.scope, id.target, id) := id])
  }

  function AddRelation(g: Graph, scope: Scope, chunk: Chunk, r: RelationCandidate): Graph {
    var id := EdgeIdOf(scope, r);
    var g' := AddEdge(g, id, r.confidence);
    g'.(evidence := g'.evidence[EvidenceKey(id, chunk.id) :=
          Evidence(id, chunk.id, Sha256(chunk.content), r.confidence)])
  }

  function AddRelations(g: Graph, scope: Scope, chunk: Chunk, rs: seq<RelationCandidate>): Graph
    decreases |rs|
  {
    if rs == [] then g else AddRelations(AddRelation(g, scope, chunk, rs[0]), scope, chunk, rs[1..])
  }

  function AddChunk(g: Graph, scope: Scope, chunk: Chunk): Graph {
    var x := Extract(chunk.content);
    AddRelations(AddEntities(g, scope, x.entities), scope, chunk, x.relations)
  }

  function Materialize(g: Graph, scope: Scope, chunks: seq<Chunk>): Graph
    decreases |chunks|
  {
    if chunks == [] then g else Materialize(AddChunk(g, scope, chunks[0]), scope, chunks[1..])
  }

  function ScopedEdges(g: Graph, scope: Scope): set<EdgeId> {
    set k | k in g.edges && g.edges[k].scope == scope :: g.edges[k].id
  }

  function KeepEntities(entities: map<EntityId, Entity>, scope: Scope): map<EntityId, Entity> {
    entities - set k | k in entities && entities[k].scope == scope
  }

  function KeepAdjacency(adjacency: map<Adjacency, EdgeId>, scope: Scope): map<Adjacency, EdgeId> {
    adjacency - set a | a in adjacency && a.scope == scope
  }

  function KeepEvidence(evidence: map<EvidenceKey, Evidence>, gone: set<EdgeId>): map<EvidenceKey, Evidence> {
    evidence - set x | x in evidence && evidence[x].edgeId in gone
  }

  function ClearScope(g: Graph, scope: Scope): Graph {
    var gone := ScopedEdges(g, scope);
    Graph(KeepEntities(g.entities, scope), g.edges - gone, KeepAdjacency(g.bySource, scope),
          KeepAdjacency(g.byTarget, scope), KeepEvidence(g.evidence, gone))
  }

  function Rebuild(g: Graph, scope: Scope, chunks: seq<Chunk>): Graph {
    Materialize(ClearScope(g, scope), scope, chunks)
  }

  // ------------------------------------------- the graph of a set of chunks

  /** The rows of one workspace, without display names and timestamps. */
  datatype Rows = Rows(entities: set<EntityId>, edges: map<EdgeId, Edge>, bySource: map<Adjacency, EdgeId>,
                       byTarget: map<Adjacency, EdgeId>, evidence: map<EvidenceKey, Evidence>)

  ghost function EntityIds(entities: map<EntityId, Entity>, scope: Scope): set<EntityId> {
    set k | k in entities && k.scope == scope :: k
  }

  ghost function EdgesOf(edges: map<EdgeId, Edge>, scope: Scope): map<EdgeId, Edge> {
    map k | k in edges && k.scope == scope :: edges[k]
  }

  ghost function AdjacencyOf(adjacency: map<Adjacency, EdgeId>, scope: Scope): map<Adjacency, EdgeId> {
    map a | a in adjacency && a.scope == scope :: adjacency[a]
  }

  ghost function EvidenceOf(evidence: map<EvidenceKey, Evidence>, scope: Scope): map<EvidenceKey, Evidence> {
    map x | x in evidence && x.edge.scope == scope :: evidence[x]
  }

  ghost function RowsOf(g: Graph, scope: Scope): Rows {
    Rows(EntityIds(g.entities, scope), EdgesOf(g.edges, scope), AdjacencyOf(g.bySource, scope),
         AdjacencyOf(g.byTarget, scope), EvidenceOf(g.evidence, scope))
  }

  function EdgeRow(id: EdgeId): Edge {
    Edge(id, id.scope, id.source, id.target, id.relation, CONFIDENCE)
  }

  function SourceKey(id: EdgeId): Adjacency {
    Adjacency(id.scope, id.source, id)
  }

  function TargetKey(id: EdgeId): Adjacency {
    Adjacency(id.scope, id.target, id)
  }

  ghost function EdgeRows(related: set<EdgeId>): map<EdgeId, Edge> {
    map id | id in related :: EdgeRow(id)
  }

  ghost function SourceRows(related: set<EdgeId>): map<Adjacency, EdgeId> {
    map id | id in related :: SourceKey(id) := id
  }

  ghost function TargetRows(related: set<EdgeId>): map<Adjacency, EdgeId> {
    map id | id in related :: TargetKey(id) := id
  }

  ghost function EntitiesNamed(scope: Scope, names: set<string>): set<EntityId> {
    set n | n in names :: EntityId(scope, n)
  }

  ghost function RowsFrom(scope: Scope, names: set<string>, related: set<EdgeId>,
                          shown: map<EvidenceKey, Evidence>): Rows {
    Rows(EntitiesNamed(scope, names), EdgeRows(related), SourceRows(related), TargetRows(related), shown)
  }

  ghost function RelatedBy(scope: Scope, rs: seq<RelationCandidate>): set<EdgeId> {
    set r | r in rs :: EdgeIdOf(scope, r)
  }

  ghost function ShownBy(scope: Scope, chunk: Uuid, content: string, rs: seq<RelationCandidate>):
    map<EvidenceKey, Evidence>
  {
    map id | id in RelatedBy(scope, rs) ::
      EvidenceKey(id, chunk) := Evidence(id, chunk, Sha256(content), CONFIDENCE)
  }

  function Names(content: string): set<string> {
    NamesOf(Extract(content).entities)
  }

  function Relations(content: string): seq<RelationCandidate> {
    Extract(content).relations
  }

  ghost function NamesIn(texts: map<Uuid, string>): set<string> {
    set c, n | c in texts && n in Names(texts[c]) :: n
  }

  ghost function RelatedIn(scope: Scope, texts: map<Uuid, string>): set<EdgeId> {
    set c, id | c in texts && id in RelatedBy(scope, Relations(texts[c])) :: id
  }

  ghost function ShownIn(scope: Scope, texts: map<Uuid, string>): map<EvidenceKey, Evidence> {
    map c, id | c in texts && id in RelatedBy(scope, Relations(texts[c])) ::
      EvidenceKey(id, c) := Evidence(id, c, Sha256(texts[c]), CONFIDENCE)
  }

  /** The reference: the graph that a set of chunks spells, with no tables and no order. */
  ghost function GraphFrom(scope: Scope, texts: map<Uuid, string>): Rows {
    RowsFrom(scope, NamesIn(texts), RelatedIn(scope, texts), ShownIn(scope, texts))
  }

  ghost predicate OthersSame(g: Graph, g': Graph, scope: Scope) {
    forall other :: other != scope ==> RowsOf(g', other) == RowsOf(g, other)
  }

  /** Every row carries the scope of its key. */
  ghost predicate KeysMatch(g: Graph) {
    && (forall k :: k in g.entities ==> g.entities[k] == Entity(k, k.scope, k.name, g.entities[k].displayName))
    && (forall k :: k in g.edges ==> g.edges[k] == EdgeRow(k))
    && (forall x :: x in g.evidence ==> g.evidence[x].edgeId == x.edge)
  }

  // ------------------------------------------- adding chunks

  lemma EntityIdsUpdate(entities: map<EntityId, Entity>, k: EntityId, v: Entity)
    ensures EntityIds(entities[k := v], k.scope) == EntityIds(entities, k.scope) + {k}
    ensures forall other :: other != k.scope ==> EntityIds(entities[k := v], other) == EntityIds(entities, other)
  {
  }

  lemma EdgesUpdate(edges: map<EdgeId, Edge>, k: EdgeId, v: Edge)
    ensures EdgesOf(edges[k := v], k.scope) == EdgesOf(edges, k.scope)[k := v]
    ensures forall other :: other != k.scope ==> EdgesOf(edges[k := v], other) == EdgesOf(edges, other)
  {
  }

  lemma AdjacencyUpdate(adjacency: map<Adjacency, EdgeId>, k: Adjacency, v: EdgeId)
    ensures AdjacencyOf(adjacency[k := v], k.scope) == AdjacencyOf(adjacency, k.scope)[k := v]
    ensures forall other :: other != k.scope ==> AdjacencyOf(adjacency[k := v], other) == AdjacencyOf(adjacency, other)
  {
  }

  lemma EvidenceUpdate(evidence: map<EvidenceKey, Evidence>, k: EvidenceKey, v: Evidence)
    ensures EvidenceOf(evidence[k := v], k.edge.scope) == EvidenceOf(evidence, k.edge.scope)[k := v]
    ensures forall other :: other != k.edge.scope ==> EvidenceOf(evidence[k := v], other) == EvidenceOf(evidence, other)
  {
  }

  lemma EntitiesNamedOneMore(scope: Scope, names: set<string>, n: string)
    ensures EntitiesNamed(scope, names + {n}) == EntitiesNamed(scope, names) + {EntityId(scope, n)}
  {
  }

  lemma EdgeRowsOneMore(related: set<EdgeId>, id: EdgeId)
    ensures EdgeRows(related + {id}) == EdgeRows(related)[id := EdgeRow(id)]
  {
  }

  lemma SourceRowsOneMore(related: set<EdgeId>, id: EdgeId)
    ensures SourceRows(related + {id}) == SourceRows(related)[SourceKey(id) := id]
  {
    var more, rows := SourceRows(related + {id}), SourceRows(related)[SourceKey(id) := id];
    assert forall a :: a in more ==> a in rows && more[a] == rows[a];
    assert forall a :: a in rows ==> a in more;
  }

  lemma TargetRowsOneMore(related: set<EdgeId>, id: EdgeId)
    ensures TargetRows(related + {id}) == TargetRows(related)[TargetKey(id) := id]
  {
    var more, rows := TargetRows(related + {id}), TargetRows(related)[TargetKey(id) := id];
    assert forall a :: a in more ==> a in rows && more[a] == rows[a];
    assert forall a :: a in rows ==> a in more;
  }

  lemma AddEntityRows(g: Graph, scope: Scope, e: EntityCandidate, names: set<string>, related: set<EdgeId>,
                      shown: map<EvidenceKey, Evidence>)
    requires RowsOf(g, scope) == RowsFrom(scope, names, related, shown) && KeysMatch(g)
    ensures var g' := AddEntity(g, scope, e);
      && RowsOf(g', scope) == RowsFrom(scope, names + {e.normalizedName}, related, shown)
      && KeysMatch(g') && OthersSame(g, g', scope)
  {
    hide EntitiesNamed, EdgeRows, SourceRows, TargetRows, EdgesOf, AdjacencyOf, EvidenceOf;
    var id := EntityId(scope, e.normalizedName);
    EntityIdsUpdate(g.entities, id, Entity(id, scope, e.normalizedName, e.displayName));
    EntitiesNamedOneMore(scope, names, e.normalizedName);
    if id in g.entities {
      assert id in EntityIds(g.entities, scope);
    }
  }

  lemma AddRelationRows(g: Graph, scope: Scope, chunk: Chunk, r: RelationCandidate, names: set<string>,
                        related: set<EdgeId>, shown: map<EvidenceKey, Evidence>)
    requires RowsOf(g, scope) == RowsFrom(scope, names, related, shown) && KeysMatch(g)
    requires r.confidence == CONFIDENCE
    ensures var g' := AddRelation(g, scope, chunk, r);
      var id := EdgeIdOf(scope, r);
      && RowsOf(g', scope) == RowsFrom(scope, names, related + {id},
           shown[EvidenceKey(id, chunk.id) := Evidence(id, chunk.id, Sha256(chunk.content), CONFIDENCE)])
      && KeysMatch(g') && OthersSame(g, g', scope)
  {
    hide EntitiesNamed, EdgeRows, SourceRows, TargetRows, EntityIds, EdgesOf, AdjacencyOf, EvidenceOf, AddEdge;
    var id := EdgeIdOf(scope, r);
    AddEdgeRows(g, id, names, related, shown);
    var h := AddEdge(g, id, CONFIDENCE);
    EvidenceUpdate(h.evidence, EvidenceKey(id, chunk.id), Evidence(id, chunk.id, Sha256(chunk.content), CONFIDENCE));
  }

  lemma EdgeKnown(edges: map<EdgeId, Edge>, id: EdgeId, related: set<EdgeId>)
    requires EdgesOf(edges, id.scope) == EdgeRows(related)
    ensures id in edges <==> id in related
  {
    assert id in EdgesOf(edges, id.scope) <==> id in edges;
    assert id in EdgeRows(related) <==> id in related;
  }

  lemma AddEdgeRows(g: Graph, id: EdgeId, names: set<string>, related: set<EdgeId>,
                    shown: map<EvidenceKey, Evidence>)
    requires RowsOf(g, id.scope) == RowsFrom(id.scope, names, related, shown) && KeysMatch(g)
    ensures var g' := AddEdge(g, id, CONFIDENCE);
      && RowsOf(g', id.scope) == RowsFrom(id.scope, names, related + {id}, shown)
      && KeysMatch(g') && OthersSame(g, g', id.scope)
  {
    hide EntitiesNamed, EdgeRows, SourceRows, TargetRows, EntityIds, EdgesOf, AdjacencyOf, EvidenceOf;
    EdgeKnown(g.edges, id, related);
    if id in g.edges {
      assert related + {id} == related;
    } else {
      EdgeRowsOneMore(related, id);
      SourceRowsOneMore(related, id);
      TargetRowsOneMore(related, id);
      EdgesUpdate(g.edges, id, EdgeRow(id));
      AdjacencyUpdate(g.bySource, SourceKey(id), id);
      AdjacencyUpdate(g.byTarget, TargetKey(id), id);
      var g' := AddEdge(g, id, CONFIDENCE);
      assert g' == Graph(g.entities, g.edges[id := EdgeRow(id)], g.bySource[SourceKey(id) := id],
                         g.byTarget[TargetKey(id) := id], g.evidence);
      forall other | other != id.scope
        ensures RowsOf(g', other) == RowsOf(g, other)
      {
      }
    }
  }

  lemma {:induction false} AddEntitiesRows(g: Graph, scope: Scope, es: seq<EntityCandidate>, names: set<string>,
                                           related: set<EdgeId>, shown: map<EvidenceKey, Evidence>)
    requires RowsOf(g, scope) == RowsFrom(scope, names, related, shown) && KeysMatch(g)
    ensures var g' := AddEntities(g, scope, es);
      && RowsOf(g', scope) == RowsFrom(scope, names + NamesOf(es), related, shown)
      && KeysMatch(g') && OthersSame(g, g', scope)
    decreases |es|
  {
    hide RowsOf, RowsFrom, KeysMatch, AddEntity;
    if es == [] {
      assert names + NamesOf(es) == names;
    } else {
      AddEntityRows(g, scope, es[0], names, related, shown);
      AddEntitiesRows(AddEntity(g, scope, es[0]), scope, es[1..], names + {es[0].normalizedName}, related, shown);
      assert forall e :: e in es <==> e == es[0] || e in es[1..];
      assert names + {es[0].normalizedName} + NamesOf(es[1..]) == names + NamesOf(es);
    }
  }

  lemma {:induction false} AddRelationsRows(g: Graph, scope: Scope, chunk: Chunk, rs: seq<RelationCandidate>,
                                            names: set<string>, related: set<EdgeId>,
                                            shown: map<EvidenceKey, Evidence>)
    requires RowsOf(g, scope) == RowsFrom(scope, names, related, shown) && KeysMatch(g)
    requires forall r :: r in rs ==> r.confidence == CONFIDENCE
    ensures var g' := AddRelations(g, scope, chunk, rs);
      && RowsOf(g', scope) == RowsFrom(scope, names, related + RelatedBy(scope, rs),
                                       shown + ShownBy(scope, chunk.id, chunk.content, rs))
      && KeysMatch(g') && OthersSame(g, g', scope)
    decreases |rs|
  {
    hide RowsOf, RowsFrom, KeysMatch, AddRelation, RelatedBy, ShownBy;
    FactsOf(scope, chunk, rs);
    if rs == [] {
      assert related + {} == related && shown + map[] == shown;
    } else {
      var id := EdgeIdOf(scope, rs[0]);
      var row := Evidence(id, chunk.id, Sha256(chunk.content), CONFIDENCE);
      var shown' := shown[EvidenceKey(id, chunk.id) := row];
      AddRelationRows(g, scope, chunk, rs[0], names, related, shown);
      AddRelationsRows(AddRelation(g, scope, chunk, rs[0]), scope, chunk, rs[1..], names, related + {id}, shown');
      FactsAddUp(related, id, RelatedBy(scope, rs[1..]), shown, EvidenceKey(id, chunk.id), row,
                 ShownBy(scope, chunk.id, chunk.content, rs[1..]));
    }
  }

  lemma FactsOf(scope: Scope, chunk: Chunk, rs: seq<RelationCandidate>)
    ensures rs == [] ==> RelatedBy(scope, rs) == {} && ShownBy(scope, chunk.id, chunk.content, rs) == map[]
    ensures rs != [] ==>
      var id := EdgeIdOf(scope, rs[0]);
      var k := EvidenceKey(id, chunk.id);
      && RelatedBy(scope, rs) == {id} + RelatedBy(scope, rs[1..])
      && ShownBy(scope, chunk.id, chunk.content, rs) ==
           map[k := Evidence(id, chunk.id, Sha256(chunk.content), CONFIDENCE)]
           + ShownBy(scope, chunk.id, chunk.content, rs[1..])
  {
    if rs != [] {
      assert forall r :: r in rs <==> r == rs[0] || r in rs[1..];
    }
  }

  lemma FactsAddUp(related: set<EdgeId>, id: EdgeId, more: set<EdgeId>, shown: map<EvidenceKey, Evidence>,
                   k: EvidenceKey, row: Evidence, rest: map<EvidenceKey, Evidence>)
    ensures related + {id} + more == related + ({id} + more)
    ensures shown[k := row] + rest == shown + (map[k := row] + rest)
  {
  }

  lemma AddChunkRows(g: Graph, scope: Scope, chunk: Chunk, texts: map<Uuid, string>)
    requires RowsOf(g, scope) == GraphFrom(scope, texts) && KeysMatch(g) && chunk.id !in texts
    ensures var g' := AddChunk(g, scope, chunk);
      && RowsOf(g', scope) == GraphFrom(scope, texts[chunk.id := chunk.content])
      && KeysMatch(g') && OthersSame(g, g', scope)
  {
    hide RowsOf, RowsFrom, KeysMatch, Extract, AddEntities, AddRelations;
    var x := Extract(chunk.content);
    RelationsAreExact(chunk.content);
    var names, related, shown := NamesIn(texts), RelatedIn(scope, texts), ShownIn(scope, texts);
    var h := AddEntities(g, scope, x.entities);
    AddEntitiesRows(g, scope, x.entities, names, related, shown);
    AddRelationsRows(h, scope, chunk, x.relations, names + NamesOf(x.entities), related, shown);
    GraphFromOneMore(scope, texts, chunk.id, chunk.content);
  }

  lemma GraphFromOneMore(scope: Scope, texts: map<Uuid, string>, c: Uuid, content: string)
    requires c !in texts
    ensures var texts' := texts[c := content];
      && NamesIn(texts') == NamesIn(texts) + Names(content)
      && RelatedIn(scope, texts') == RelatedIn(scope, texts) + RelatedBy(scope, Relations(content))
      && ShownIn(scope, texts') == ShownIn(scope, texts) + ShownBy(scope, c, content, Relations(content))
  {
    hide RelatedBy, Names, Relations;
    var texts' := texts[c := content];
    assert forall x :: x in texts' <==> x in texts || x == c;
    assert forall x :: x in texts ==> texts'[x] == texts[x];
  }

  ghost predicate DistinctIds(chunks: seq<Chunk>) {
    forall i, j :: 0 <= i < j < |chunks| ==> chunks[i].id != chunks[j].id
  }

  lemma RestIsDistinct(chunks: seq<Chunk>)
    requires DistinctIds(chunks) && chunks != []
    ensures DistinctIds(chunks[1..]) && forall d :: d in chunks[1..] ==> d.id != chunks[0].id
  {
  }

  /** Incremental upkeep: new chunks turn the graph of the old texts into the graph of all texts. */
  lemma {:induction false} MaterializeRows(g: Graph, scope: Scope, chunks: seq<Chunk>, texts: map<Uuid, string>,
                                           all: map<Uuid, string>)
    requires RowsOf(g, scope) == GraphFrom(scope, texts) && KeysMatch(g)
    requires DistinctIds(chunks) && forall c :: c in chunks ==> c.id !in texts
    requires all.Keys == texts.Keys + set c | c in chunks :: c.id
    requires forall c :: c in chunks ==> all[c.id] == c.content
    requires forall id :: id in texts ==> all[id] == texts[id]
    ensures var g' := Materialize(g, scope, chunks);
      && RowsOf(g', scope) == GraphFrom(scope, all) && KeysMatch(g') && OthersSame(g, g', scope)
    decreases |chunks|
  {
    hide RowsOf, GraphFrom, KeysMatch, AddChunk;
    if chunks == [] {
      assert all == texts;
    } else {
      var c := chunks[0];
      AddChunkRows(g, scope, c, texts);
      RestJoins(chunks, texts, all);
      MaterializeRows(AddChunk(g, scope, c), scope, chunks[1..], texts[c.id := c.content], all);
    }
  }

  lemma RestJoins(chunks: seq<Chunk>, texts: map<Uuid, string>, all: map<Uuid, string>)
    requires chunks != [] && DistinctIds(chunks) && forall c :: c in chunks ==> c.id !in texts
    requires all.Keys == texts.Keys + set c | c in chunks :: c.id
    requires forall c :: c in chunks ==> all[c.id] == c.content
    requires forall id :: id in texts ==> all[id] == texts[id]
    ensures var (rest, more) := (chunks[1..], texts[chunks[0].id := chunks[0].content]);
      && DistinctIds(rest) && (forall c :: c in rest ==> c.id !in more && all[c.id] == c.content)
      && all.Keys == more.Keys + (set c | c in rest :: c.id)
      && (forall id :: id in more ==> all[id] == more[id])
  {
    var c := chunks[0];
    assert forall d :: d in chunks <==> d == c || d in chunks[1..];
    RestIsDistinct(chunks);
    assert texts[c.id := c.content].Keys == texts.Keys + {c.id};
  }

  lemma NothingFromNothing(scope: Scope)
    ensures GraphFrom(scope, map[]) == Rows({}, map[], map[], map[], map[])
  {
    hide Extract, NamesOf;
    assert NamesIn(map[]) == {} && RelatedIn(scope, map[]) == {} && ShownIn(scope, map[]) == map[];
  }

  /** Evidence never outlives its edge. */
  lemma EvidenceHasEdge(g: Graph, scope: Scope, texts: map<Uuid, string>, x: EvidenceKey)
    requires RowsOf(g, scope) == GraphFrom(scope, texts) && x in g.evidence && x.edge.scope == scope
    ensures x.edge in g.edges
  {
    hide RelatedBy, Relations, NamesIn;
    assert x in EvidenceOf(g.evidence, scope);
    assert x in ShownIn(scope, texts);
    assert x.edge in EdgeRows(RelatedIn(scope, texts));
    assert x.edge in EdgesOf(g.edges, scope);
  }

  lemma KeptEntities(entities: map<EntityId, Entity>, scope: Scope, other: Scope)
    requires forall k :: k in entities ==> entities[k].scope == k.scope
    ensures EntityIds(KeepEntities(entities, scope), other) == if other == scope then {} else EntityIds(entities, other)
  {
  }

  lemma KeptEdges(edges: map<EdgeId, Edge>, gone: set<EdgeId>, scope: Scope, other: Scope)
    requires forall k :: k in gone <==> k in edges && k.scope == scope
    ensures EdgesOf(edges - gone, other) == if other == scope then map[] else EdgesOf(edges, other)
  {
  }

  lemma KeptAdjacency(adjacency: map<Adjacency, EdgeId>, scope: Scope, other: Scope)
    ensures AdjacencyOf(KeepAdjacency(adjacency, scope), other) ==
            if other == scope then map[] else AdjacencyOf(adjacency, other)
  {
  }

  lemma KeptEvidence(evidence: map<EvidenceKey, Evidence>, gone: set<EdgeId>, scope: Scope, other: Scope)
    requires forall x :: x in evidence ==> (evidence[x].edgeId in gone <==> x.edge.scope == scope)
    ensures EvidenceOf(KeepEvidence(evidence, gone), other) ==
            if other == scope then map[] else EvidenceOf(evidence, other)
  {
  }

  lemma ScopedEdgesAreKeyed(g: Graph, scope: Scope)
    requires KeysMatch(g)
    ensures forall k :: k in ScopedEdges(g, scope) <==> k in g.edges && k.scope == scope
  {
  }

  /** Clearing leaves a workspace with the graph of no text, and touches no other workspace. */
  lemma ClearRows(g: Graph, scope: Scope, texts: map<Uuid, string>)
    requires KeysMatch(g) && RowsOf(g, scope) == GraphFrom(scope, texts)
    ensures var g' := ClearScope(g, scope);
      && RowsOf(g', scope) == GraphFrom(scope, map[]) && KeysMatch(g') && OthersSame(g, g', scope)
  {
    var g' := ClearScope(g, scope);
    var gone := ScopedEdges(g, scope);
    hide GraphFrom, ScopedEdges, EntityIds, EdgesOf, AdjacencyOf, EvidenceOf;
    ScopedEdgesAreKeyed(g, scope);
    forall x | x in g.evidence
      ensures g.evidence[x].edgeId in gone <==> x.edge.scope == scope
    {
      if x.edge.scope == scope { EvidenceHasEdge(g, scope, texts, x); }
    }
    forall other
      ensures RowsOf(g', other) == if other == scope then Rows({}, map[], map[], map[], map[]) else RowsOf(g, other)
    {
      KeptEntities(g.entities, scope, other);
      KeptEdges(g.edges, gone, scope, other);
      KeptAdjacency(g.bySource, scope, other);
      KeptAdjacency(g.byTarget, scope, other);
      KeptEvidence(g.evidence, gone, scope, other);
    }
    NothingFromNothing(scope);
  }

  /** Rebuilding from all texts in any order lands on the same rows as incremental upkeep. */
  lemma RebuildIsNoOp(g: Graph, scope: Scope, chunks: seq<Chunk>, texts: map<Uuid, string>)
    requires KeysMatch(g) && RowsOf(g, scope) == GraphFrom(scope, texts)
    requires DistinctIds(chunks) && texts.Keys == set c | c in chunks :: c.id
    requires forall c :: c in chunks ==> texts[c.id] == c.content
    ensures forall other :: RowsOf(Rebuild(g, scope, chunks), other) == RowsOf(g, other)
    ensures KeysMatch(Rebuild(g, scope, chunks))
  {
    hide RowsOf, GraphFrom, KeysMatch, ClearScope, Materialize;
    ClearRows(g, scope, texts);
    MaterializeRows(ClearScope(g, scope), scope, chunks, map[], texts);
  }
}
