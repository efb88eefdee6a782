/** Share grants: who they expose a memory to, and how they are proposed and reviewed. */
module ShareSpec {
  import opened Basics
  import opened GovernanceTypes
  import opened MemorySpec
  import Text
  import Chunker

  // ------------------------------------------------- audiences

  predicate ValidAudience(a: Audience) {
    !(a.Workspace? && Chunker.IsBlank(a.workspace))
  }

  predicate Permits(a: Audience, requestWorkspace: string, subject: Uuid, kind: SubjectKind) {
    match a
    case Organization => true
    case Workspace(workspace) => workspace == requestWorkspace
    case Agent(target) => kind == AgentSubject && target == subject
    case User(target) => kind == UserSubject && target == subject
  }

  predicate IsActiveFor(share: Share, requestWorkspace: string, subject: Uuid, kind: SubjectKind, now: nat) {
    share.state == Approved && IsLater(share.expiresAt, now) && Permits(share.audience, requestWorkspace, subject, kind)
  }

  function HexDigit(d: nat): char
    requires d < 16
  {
    "0123456789abcdef"[d]
  }

  /** The last `n` hexadecimal digits of `u`. */
  function Hex(u: nat, n: nat): (r: string)
    ensures |r| == n
  {
    if n == 0 then "" else Hex(u / 16, n - 1) + [HexDigit(u % 16)]
  }

  /** The hyphenated text form of a UUID (section 4 of RFC 9562). */
  function UuidText(u: Uuid): string {
    var hex := Hex(u, 32);
    hex[..8] + "-" + hex[8..12] + "-" + hex[12..16] + "-" + hex[16..20] + "-" + hex[20..]
  }

  function StableKey(a: Audience): string {
    match a
    case Organization => "organization"
    case Workspace(workspace) => "workspace:" + workspace
    case Agent(subject) => "agent:" + UuidText(subject)
    case User(subject) => "user:" + UuidText(subject)
  }

  // ------------------------------------------------- proposal and review

  predicate IsOpen(state: ReviewState) {
    state == Pending || state == Approved
  }

  predicate Duplicates(share: Share, scope: Scope, memoryId: Uuid, audience: Audience) {
    && share.scope == scope && share.memoryId == memoryId
    && StableKey(share.audience) == StableKey(audience) && IsOpen(share.state)
  }

  function CheckSource(memories: map<Uuid, Memory>, memoryId: Uuid, scope: Scope, now: nat): Option<Failure> {
    if memoryId !in memories then Some(MissingMemory)
    else if memories[memoryId].scope != scope then Some(MissingMemory)
    else if !IsRetrievable(memories[memoryId], now) then Some(NotRetrievable)
    else None
  }

  function CheckProposal(r: Registry, scope: Scope, memoryId: Uuid, audience: Audience, expiresAt: Option<nat>,
                         now: nat): Option<Failure> {
    if CheckScope(scope).Some? then CheckScope(scope)
    else if !ValidAudience(audience) then Some(InvalidAudience)
    else if CheckExpiry(expiresAt, now).Some? then CheckExpiry(expiresAt, now)
    else if CheckSource(r.memories, memoryId, scope, now).Some? then CheckSource(r.memories, memoryId, scope, now)
    else if exists s :: s in r.shares && Duplicates(r.shares[s], scope, memoryId, audience) then Some(DuplicateGrant)
    else None
  }

  /** `propose_memory_share`. */
  function Propose(r: Registry, id: Uuid, scope: Scope, memoryId: Uuid, audience: Audience, proposedBy: Uuid,
                   expiresAt: Option<nat>, now: nat): (Registry, Result<Share>) {
    var invalid := CheckProposal(r, scope, memoryId, audience, expiresAt, now);
    if invalid.Some? then (r, Err(invalid.value))
    else if memoryId !in r.memories then (r, Err(MissingMemory))
    else
      var share := Share(id, scope, memoryId, audience, Pending, proposedBy, None, None, r.memories[memoryId].version,
                         expiresAt, now, 1);
      (r.(shares := r.shares[id := share], events := r.events + [Event(ShareProposed, ShareSubject(id), scope, 1)]),
       Ok(share))
  }

  predicate CanTransitionTo(state: ReviewState, next: ReviewState) {
    (state == Pending && next != Pending) || (state == Approved && next == Revoked)
  }

  function CheckReview(r: Registry, share: Share, scope: Scope, state: ReviewState, now: nat): Option<Failure> {
    if share.scope != scope then Some(WrongWorkspace)
    else if !CanTransitionTo(share.state, state) then Some(InvalidTransition)
    else if state != Approved then None
    else if share.memoryId !in r.memories then Some(MissingMemory)
    else if r.memories[share.memoryId].scope != scope then Some(NotRetrievable)
    else if !IsRetrievable(r.memories[share.memoryId], now) then Some(NotRetrievable)
    else None
  }

  function Reviewed(share: Share, state: ReviewState, reviewedBy: Uuid, note: Option<string>, now: nat): Share {
    share.(state := state, reviewedBy := Some(reviewedBy),
           note := if note.Some? && !Chunker.IsBlank(note.value) then note else None,
           updatedAt := now, version := share.version + 1)
  }

  /** `review_memory_share`. */
  function Review(r: Registry, id: Uuid, scope: Scope, state: ReviewState, reviewedBy: Uuid, note: Option<string>,
                  now: nat): (Registry, Result<Option<Share>>) {
    if CheckScope(scope).Some? then (r, Err(CheckScope(scope).value))
    else if note.Some? && Text.Utf8Len(note.value) > 1_024 then (r, Err(ReviewNoteTooLong))
    else if id !in r.shares then (r, Ok(None))
    else
      var invalid := CheckReview(r, r.shares[id], scope, state, now);
      if invalid.Some? then (r, Err(invalid.value))
      else
        var share := Reviewed(r.shares[id], state, reviewedBy, note, now);
        (r.(shares := r.shares[id := share],
            events := r.events + [Event(ShareReviewed, ShareSubject(id), scope, share.version)]), Ok(Some(share)))
  }

  // ------------------------------------------------- what every grant keeps

  predicate ShareFits(share: Share, id: Uuid) {
    && share.id == id
    && match share.state
       case Pending => share.version == 1
       case Approved => share.version == 2
       case Rejected => share.version == 2
       case Revoked => 2 <= share.version <= 3
  }

  predicate SameGrant(a: Share, b: Share) {
    a.scope == b.scope && a.memoryId == b.memoryId && a.audience == b.audience && IsOpen(a.state) && IsOpen(b.state)
  }

  /** At most one pending or approved grant for each workspace, memory and audience. */
  ghost predicate UniqueGrants(shares: map<Uuid, Share>) {
    forall a, b :: a in shares && b in shares && SameGrant(shares[a], shares[b]) ==> a == b
  }

  /** The memory behind a grant exists, in the grant's own workspace. */
  predicate Backed(memories: map<Uuid, Memory>, share: Share) {
    share.memoryId in memories && memories[share.memoryId].scope == share.scope
  }

  ghost predicate ShareAnnounced(shares: map<Uuid, Share>, events: seq<Event>, id: Uuid) {
    Versions(events, ShareSubject(id)) == CountUp(if id in shares then shares[id].version else 0)
  }

  ghost predicate SharesValid(memories: map<Uuid, Memory>, shares: map<Uuid, Share>, events: seq<Event>) {
    && (forall id :: id in shares ==> ShareFits(shares[id], id) && Backed(memories, shares[id]))
    && (forall id :: ShareAnnounced(shares, events, id))
    && UniqueGrants(shares)
  }

  ghost predicate RegistryValid(r: Registry) {
    MemoriesValid(r.memories, r.events) && SharesValid(r.memories, r.shares, r.events)
  }
}
