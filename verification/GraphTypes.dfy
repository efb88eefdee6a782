/** Identities and rows of the workspace graph. */
module GraphTypes {
  import opened Basics

  const DETERMINISTIC_EXTRACTOR := "deterministic-keyword-v1"
  const EXTRACTION_VERSION := 1
  const CO_OCCURS := "co_occurs_with"
  const CONFIDENCE: real := 0.5

  /** The UUIDv5 of an entity: an injective function of its scope and normalized name. */
  datatype EntityId = EntityId(scope: Scope, name: string)

  /** The UUIDv5 of an edge: an injective function of its scope and identity. */
  datatype EdgeId = EdgeId(scope: Scope, source: EntityId, target: EntityId, relation: string)

  datatype Entity = Entity(id: EntityId, scope: Scope, normalizedName: string, displayName: string)

  datatype Edge = Edge(id: EdgeId, scope: Scope, source: EntityId, target: EntityId,
                       relation: string, confidence: real)

  datatype Evidence = Evidence(edgeId: EdgeId, chunkId: Uuid, source: Digest, confidence: real)
}
