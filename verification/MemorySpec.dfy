/** The memory lifecycle: what creation, transition and expiry do to the memory table and the log. */
module MemorySpec {
  import opened Basics
  import opened GovernanceTypes
  import Chunker

  /** `ensure_scope`. */
  function CheckScope(scope: Scope): Option<Failure> {
    if Chunker.IsBlank(scope.organization) || Chunker.IsBlank(scope.workspace) then Some(EmptyScope) else None
  }

  function CheckExpiry(expiresAt: Option<nat>, now: nat): Option<Failure> {
    if expiresAt.None? then None
    else if expiresAt.value <= now then Some(ExpiryInThePast)
    else if expiresAt.value - now > MAX_MEMORY_RETENTION_MS then Some(RetentionTooLong)
    else None
  }

  function ValidateMemory(new': NewMemory, now: nat): Option<Failure> {
    if CheckScope(new'.scope).Some? then CheckScope(new'.scope)
    else if Chunker.IsBlank(new'.content) then Some(EmptyContent)
    else if !(0.0 <= new'.confidence <= 1.0) then Some(InvalidConfidence)
    else CheckExpiry(new'.expiresAt, now)
  }

  function ProposedMemory(new': NewMemory, id: Uuid, now: nat): Memory {
    Memory(id, new'.scope, new'.content, new'.source, Sha256(new'.content), new'.confidence, Proposed, now,
           new'.expiresAt, None, 1, if new'.expiresAt.Some? then ExpireAt else Indefinite)
  }

  /** `create_memory`. */
  function Create(r: Registry, new': NewMemory, id: Uuid, now: nat): (Registry, Result<Memory>) {
    var invalid := ValidateMemory(new', now);
    if invalid.Some? then (r, Err(invalid.value))
    else
      var m := ProposedMemory(new', id, now);
      (r.(memories := r.memories[id := m],
          events := r.events + [Event(MemoryProposed, MemorySubject(id), m.scope, m.version)]), Ok(m))
  }

  predicate IsValidTransition(current: Lifecycle, target: Lifecycle) {
    || (current == Proposed && target == Validated)
    || (current == Validated && target == Published)
    || ((current == Proposed || current == Validated || current == Published) && target == Expired)
    || (current == Published && target == Superseded)
  }

  /** The replacement of a superseded memory: another published, unexpired memory of the same workspace. */
  function CheckReplacement(memories: map<Uuid, Memory>, m: Memory, change: Change, now: nat): Option<Failure> {
    if change.lifecycle != Superseded then None
    else if change.supersededBy.None? then Some(MissingReplacement)
    else if change.supersededBy.value == m.id then Some(SelfSupersession)
    else if change.supersededBy.value !in memories then Some(MissingReplacement)
    else
      var replacement := memories[change.supersededBy.value];
      if replacement.scope != m.scope then Some(WrongWorkspace)
      else if !IsRetrievable(replacement, now) then Some(ReplacementNotPublished)
      else None
  }

  function Moved(m: Memory, change: Change, now: nat): Memory {
    var expiresAt := if change.expiresAt.Some? then change.expiresAt else m.expiresAt;
    m.(lifecycle := change.lifecycle, expiresAt := expiresAt,
       retention := if expiresAt.Some? then ExpireAt else m.retention,
       supersededBy := change.supersededBy, updatedAt := now, version := m.version + 1)
  }

  function CheckTransition(memories: map<Uuid, Memory>, m: Memory, scope: Scope, change: Change, now: nat):
    Option<Failure>
  {
    if m.scope != scope then Some(WrongWorkspace)
    else if !IsValidTransition(m.lifecycle, change.lifecycle) then Some(InvalidTransition)
    else
      var replacement := CheckReplacement(memories, m, change, now);
      if replacement.Some? then replacement else CheckExpiry(change.expiresAt, now)
  }

  /** `transition_memory`. */
  function Transition(r: Registry, id: Uuid, scope: Scope, change: Change, now: nat):
    (Registry, Result<Option<Memory>>)
  {
    if id !in r.memories then (r, Ok(None))
    else
      var m := r.memories[id];
      var invalid := CheckTransition(r.memories, m, scope, change, now);
      if invalid.Some? then (r, Err(invalid.value))
      else
        var m' := Moved(m, change, now);
        (r.(memories := r.memories[id := m'],
            events := r.events + [Event(MemoryLifecycleChanged, MemorySubject(id), m'.scope, m'.version)]),
         Ok(Some(m')))
  }

  predicate IsDue(m: Memory, now: nat) {
    && (m.lifecycle == Proposed || m.lifecycle == Validated || m.lifecycle == Published)
    && m.expiresAt.Some? && m.expiresAt.value <= now
  }

  function DueMemories(memories: map<Uuid, Memory>, now: nat): set<Uuid> {
    set id | id in memories && IsDue(memories[id], now)
  }

  function ExpiredMemory(m: Memory, now: nat): Memory {
    m.(lifecycle := Expired, updatedAt := now, version := m.version + 1)
  }

  function ExpiryEvents(memories: map<Uuid, Memory>, due: seq<Uuid>): seq<Event>
    requires forall id :: id in due ==> id in memories
  {
    seq(|due|, i requires 0 <= i < |due| =>
      Event(MemoryLifecycleChanged, MemorySubject(due[i]), memories[due[i]].scope, memories[due[i]].version + 1))
  }

  /** `expire_due_memories`. */
  function Expire(r: Registry, now: nat): Registry {
    var due := DueMemories(r.memories, now);
    r.(memories := map id | id in r.memories ::
                     if id in due then ExpiredMemory(r.memories[id], now) else r.memories[id],
       events := r.events + ExpiryEvents(r.memories, InOrder(due)))
  }

  // ------------------------------------------------- what every memory keeps

  /** A memory's version says how far along its life it is. */
  predicate VersionFits(m: Memory) {
    match m.lifecycle
    case Proposed => m.version == 1
    case Validated => m.version == 2
    case Published => m.version == 3
    case Superseded => m.version == 4
    case Expired => 2 <= m.version <= 4
  }

  predicate MemoryFits(m: Memory, id: Uuid) {
    && m.id == id && VersionFits(m)
    && (m.retention == ExpireAt <==> m.expiresAt.Some?)
    && m.contentSha == Sha256(m.content)
    && (m.lifecycle == Superseded ==> m.supersededBy.Some? && m.supersededBy.value != id)
  }

  /** `steps` links of `superseded_by` lead from `id` through superseded memories to a published or expired one. */
  ghost predicate Leads(memories: map<Uuid, Memory>, id: Uuid, scope: Scope, steps: nat)
    decreases steps
  {
    && id in memories && memories[id].scope == scope
    && if steps == 0 then memories[id].lifecycle == Published || memories[id].lifecycle == Expired
       else && memories[id].lifecycle == Superseded && memories[id].supersededBy.Some?
            && Leads(memories, memories[id].supersededBy.value, scope, steps - 1)
  }

  ghost predicate HasEnd(memories: map<Uuid, Memory>, id: Uuid)
    requires id in memories
  {
    exists steps: nat :: Leads(memories, id, memories[id].scope, steps)
  }

  ghost predicate ChainsEnd(memories: map<Uuid, Memory>) {
    forall id :: id in memories && memories[id].lifecycle == Superseded ==> HasEnd(memories, id)
  }

  ghost predicate Announced(memories: map<Uuid, Memory>, events: seq<Event>, id: Uuid) {
    Versions(events, MemorySubject(id)) == CountUp(if id in memories then memories[id].version else 0)
  }

  ghost predicate MemoriesValid(memories: map<Uuid, Memory>, events: seq<Event>) {
    && (forall id :: id in memories ==> MemoryFits(memories[id], id))
    && (forall id :: Announced(memories, events, id))
    && ChainsEnd(memories)
  }
}
