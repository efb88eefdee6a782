/** The graph tables inside one write transaction: the in-place loops behind `GraphProjection`. */
module GraphTransaction {
  import opened Basics
  import opened GraphTypes
  import opened Extractor
  import opened GraphProjection

  /** The textual identity under which `materialize_graph_chunks` finds an edge again. */
  datatype Identity = Identity(source: EntityId, target: EntityId, relation: string)

  class Transaction {
    var entities: map<EntityId, Entity>
    var edges: map<EdgeId, Edge>
    var bySource: map<Adjacency, EdgeId>
    var byTarget: map<Adjacency, EdgeId>
    var evidence: map<EvidenceKey, Evidence>

    function View(): Graph
      reads this
    {
      Graph(entities, edges, bySource, byTarget, evidence)
    }

    constructor (g: Graph)
      ensures View() == g
    {
      entities, edges, bySource, byTarget, evidence := g.entities, g.edges, g.bySource, g.byTarget, g.evidence;
    }

    /** `entities_by_name` holds exactly the entities of the workspace. */
    ghost predicate NamesIndexed(scope: Scope, byName: map<string, Entity>)
      reads this
    {
      forall n :: (n in byName <==> EntityId(scope, n) in entities)
        && (n in byName ==> byName[n].id == EntityId(scope, n))
    }

    /** `edges_by_identity` holds exactly the edges of the workspace. */
    ghost predicate EdgesIndexed(scope: Scope, byIdentity: map<Identity, Edge>)
      reads this
    {
      forall k :: (k in byIdentity <==> EdgeId(scope, k.source, k.target, k.relation) in edges)
        && (k in byIdentity ==> byIdentity[k].id == EdgeId(scope, k.source, k.target, k.relation))
    }

    method MaterializeGraphChunks(scope: Scope, chunks: seq<Chunk>)
      requires KeysMatch(View())
      modifies this
      ensures View() == Materialize(old(View()), scope, chunks)
    {
      hide AddChunk, KeysMatch, NamesIndexed, EdgesIndexed, Extract, NamesOf, NameLeq;
      var byName := IndexNames(scope);
      var byIdentity := IndexEdges(scope);
      for i := 0 to |chunks|
        invariant NamesIndexed(scope, byName) && EdgesIndexed(scope, byIdentity)
        invariant Materialize(old(View()), scope, chunks) == Materialize(View(), scope, chunks[i..])
      {
        assert chunks[i..][0] == chunks[i] && chunks[i..][1..] == chunks[i + 1..];
        ghost var before := View();
        var extraction := ExtractLoop(chunks[i].content);
        RelationsAreExact(chunks[i].content);
        byName := InsertEntities(scope, extraction.entities, byName);
        byIdentity := InsertRelations(scope, chunks[i], extraction.relations, byName, byIdentity);
        AddChunkIs(before, scope, chunks[i]);
      }
    }

    method IndexNames(scope: Scope) returns (byName: map<string, Entity>)
      requires KeysMatch(View())
      ensures NamesIndexed(scope, byName)
    {
      byName := map k | k in entities && entities[k].scope == scope :: entities[k].normalizedName := entities[k];
    }

    method IndexEdges(scope: Scope) returns (byIdentity: map<Identity, Edge>)
      requires KeysMatch(View())
      ensures EdgesIndexed(scope, byIdentity)
    {
      byIdentity := map k | k in edges && edges[k].scope == scope ::
        Identity(edges[k].source, edges[k].target, edges[k].relation) := edges[k];
    }

    method InsertEntities(scope: Scope, candidates: seq<EntityCandidate>, byName0: map<string, Entity>)
      returns (byName: map<string, Entity>)
      requires NamesIndexed(scope, byName0)
      modifies this`entities
      ensures forall byIdentity :: old(EdgesIndexed(scope, byIdentity)) ==> EdgesIndexed(scope, byIdentity)
      ensures View() == AddEntities(old(View()), scope, candidates)
      ensures NamesIndexed(scope, byName)
      ensures forall n :: n in NamesOf(candidates) ==> n in byName
    {
      byName := byName0;
      for i := 0 to |candidates|
        invariant NamesIndexed(scope, byName)
        invariant forall k :: 0 <= k < i ==> candidates[k].normalizedName in byName
        invariant AddEntities(old(View()), scope, candidates) == AddEntities(View(), scope, candidates[i..])
      {
        assert candidates[i..][0] == candidates[i] && candidates[i..][1..] == candidates[i + 1..];
        var name := candidates[i].normalizedName;
        if name in byName {
          continue;
        }
        var entity := Entity(EntityId(scope, name), scope, name, candidates[i].displayName);
        entities := entities[EntityId(scope, name) := entity];
        byName := byName[name := entity];
      }
    }

    method InsertRelations(scope: Scope, chunk: Chunk, relations: seq<RelationCandidate>,
                           byName: map<string, Entity>, byIdentity0: map<Identity, Edge>)
      returns (byIdentity: map<Identity, Edge>)
      requires NamesIndexed(scope, byName) && EdgesIndexed(scope, byIdentity0)
      requires forall r :: r in relations ==> r.source in byName && r.target in byName
      modifies this`edges, this`bySource, this`byTarget, this`evidence
      ensures View() == AddRelations(old(View()), scope, chunk, relations)
      ensures EdgesIndexed(scope, byIdentity) && NamesIndexed(scope, byName)
    {
      hide AddRelation, EdgesIndexed;
      byIdentity := byIdentity0;
      for i := 0 to |relations|
        invariant EdgesIndexed(scope, byIdentity)
        invariant AddRelations(old(View()), scope, chunk, relations)
               == AddRelations(View(), scope, chunk, relations[i..])
        invariant entities == old(entities)
      {
        assert relations[i..][0] == relations[i] && relations[i..][1..] == relations[i + 1..];
        var r := relations[i];
        byIdentity := InsertRelation(scope, chunk, r, byName[r.source].id, byName[r.target].id, byIdentity);
      }
    }

    /** One relation: its edge unless the workspace has it already, and the evidence of this chunk. */
    method InsertRelation(scope: Scope, chunk: Chunk, r: RelationCandidate, source: EntityId, target: EntityId,
                          byIdentity0: map<Identity, Edge>) returns (byIdentity: map<Identity, Edge>)
      requires EdgesIndexed(scope, byIdentity0)
      requires source == EntityId(scope, r.source) && target == EntityId(scope, r.target)
      modifies this`edges, this`bySource, this`byTarget, this`evidence
      ensures View() == AddRelation(old(View()), scope, chunk, r)
      ensures EdgesIndexed(scope, byIdentity)
    {
      hide AddRelation;
      AddRelationIs(View(), scope, chunk, r);
      byIdentity := byIdentity0;
      var identity := Identity(source, target, r.relation);
      var id := EdgeId(scope, source, target, r.relation);
      if identity !in byIdentity {
        var edge := Edge(id, scope, source, target, r.relation, r.confidence);
        edges := edges[id := edge];
        bySource := bySource[Adjacency(scope, source, id) := id];
        byTarget := byTarget[Adjacency(scope, target, id) := id];
        byIdentity := byIdentity[identity := edge];
      }
      var edge := byIdentity[identity];
      evidence := evidence[EvidenceKey(edge.id, chunk.id) :=
        Evidence(edge.id, chunk.id, Sha256(chunk.content), r.confidence)];
    }

    method ClearGraphWorkspace(scope: Scope)
      requires KeysMatch(View())
      modifies this
      ensures View() == ClearScope(old(View()), scope)
    {
      var edgeIds := set k | k in edges && edges[k].scope == scope :: edges[k].id;
      edges := Without(edges, edgeIds);
      bySource := Without(bySource, set a | a in bySource && a.scope == scope);
      byTarget := Without(byTarget, set a | a in byTarget && a.scope == scope);
      evidence := Without(evidence, set x | x in evidence && evidence[x].edgeId in edgeIds);
      entities := Without(entities, set k | k in entities && entities[k].scope == scope);
    }
  }

  lemma AddChunkIs(g: Graph, scope: Scope, chunk: Chunk)
    ensures AddChunk(g, scope, chunk) == AddRelations(AddEntities(g, scope, Extract(chunk.content).entities), scope,
                                                      chunk, Extract(chunk.content).relations)
  {
  }

  lemma AddRelationIs(g: Graph, scope: Scope, chunk: Chunk, r: RelationCandidate)
    ensures var id := EdgeId(scope, EntityId(scope, r.source), EntityId(scope, r.target), r.relation);
      var evidence := g.evidence[EvidenceKey(id, chunk.id) := Evidence(id, chunk.id, Sha256(chunk.content),
                                                                       r.confidence)];
      AddRelation(g, scope, chunk, r) ==
        if id in g.edges then g.(evidence := evidence)
        else Graph(g.entities, g.edges[id := Edge(id, scope, id.source, id.target, r.relation, r.confidence)],
                   g.bySource[Adjacency(scope, id.source, id) := id],
                   g.byTarget[Adjacency(scope, id.target, id) := id], evidence)
  {
  }

  /** Collecting keys and then removing them one by one. */
  method Without<K, V>(table: map<K, V>, keys: set<K>) returns (rest: map<K, V>)
    ensures rest == table - keys
  {
    rest := table;
    var pending := keys;
    while pending != {}
      invariant pending <= keys
      invariant rest == table - (keys - pending)
    {
      var k :| k in pending;
      rest := rest - {k};
      pending := pending - {k};
    }
  }
}
