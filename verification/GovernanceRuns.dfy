/** Whole runs of memory governance: creation, transitions, expiry, proposals and reviews in any order. */
module GovernanceRuns {
  import opened Basics
  import opened GovernanceTypes
  import opened MemorySpec
  import opened MemoryProofs
  import opened ShareSpec
  import opened ShareProofs

  datatype Op =
    | CreateOp(new': NewMemory, id: Uuid, now: nat)
    | TransitionOp(id: Uuid, scope: Scope, change: Change, now: nat)
    | ExpireOp(now: nat)
    | ProposeOp(id: Uuid, scope: Scope, memoryId: Uuid, audience: Audience, proposedBy: Uuid, expiresAt: Option<nat>,
                now: nat)
    | ReviewOp(id: Uuid, scope: Scope, state: ReviewState, reviewedBy: Uuid, note: Option<string>, now: nat)

  /** One operation; ids drawn for new rows are assumed fresh, so an id already in use changes nothing. */
  function Apply(r: Registry, op: Op): Registry {
    match op
    case CreateOp(new', id, now) => if id in r.memories then r else Create(r, new', id, now).0
    case TransitionOp(id, scope, change, now) => Transition(r, id, scope, change, now).0
    case ExpireOp(now) => Expire(r, now)
    case ProposeOp(id, scope, memoryId, audience, proposedBy, expiresAt, now) =>
      if id in r.shares then r else Propose(r, id, scope, memoryId, audience, proposedBy, expiresAt, now).0
    case ReviewOp(id, scope, state, reviewedBy, note, now) => Review(r, id, scope, state, reviewedBy, note, now).0
  }

  function Run(r: Registry, ops: seq<Op>): Registry
    decreases |ops|
  {
    if ops == [] then r else Run(Apply(r, ops[0]), ops[1..])
  }

  lemma ApplyKeepsRegistry(r: Registry, op: Op)
    requires RegistryValid(r)
    ensures RegistryValid(Apply(r, op))
  {
    hide RegistryValid, Create, Transition, Expire, Propose, Review;
    match op
    case CreateOp(new', id, now) => if id !in r.memories { CreateKeepsRegistry(r, new', id, now); }
    case TransitionOp(id, scope, change, now) => TransitionKeepsRegistry(r, id, scope, change, now);
    case ExpireOp(now) => ExpireKeepsRegistry(r, now);
    case ProposeOp(id, scope, memoryId, audience, proposedBy, expiresAt, now) =>
      if id !in r.shares { ProposeKeepsRegistry(r, id, scope, memoryId, audience, proposedBy, expiresAt, now); }
    case ReviewOp(id, scope, state, reviewedBy, note, now) =>
      ReviewKeepsRegistry(r, id, scope, state, reviewedBy, note, now);
  }

  lemma {:induction false} RunKeepsRegistry(r: Registry, ops: seq<Op>)
    requires RegistryValid(r)
    ensures RegistryValid(Run(r, ops))
    decreases |ops|
  {
    hide RegistryValid, Apply;
    if ops != [] {
      ApplyKeepsRegistry(r, ops[0]);
      RunKeepsRegistry(Apply(r, ops[0]), ops[1..]);
    }
  }

  lemma EmptyIsValid()
    ensures RegistryValid(EMPTY_REGISTRY)
  {
  }

  /**
   * Versions and events. After any run, the log announces the versions 1, 2, ... of each memory and of
   * each grant in order and once each, and the version fixes how far the life cycle has come.
   */
  lemma EventsMatchVersions(ops: seq<Op>, id: Uuid)
    ensures var r := Run(EMPTY_REGISTRY, ops);
      && (id in r.memories ==>
            Versions(r.events, MemorySubject(id)) == CountUp(r.memories[id].version) && VersionFits(r.memories[id]))
      && (id in r.shares ==>
            Versions(r.events, ShareSubject(id)) == CountUp(r.shares[id].version) && 1 <= r.shares[id].version <= 3)
  {
    hide Run, CountUp, Versions, ChainsEnd, UniqueGrants;
    EmptyIsValid();
    RunKeepsRegistry(EMPTY_REGISTRY, ops);
    var r := Run(EMPTY_REGISTRY, ops);
    assert Announced(r.memories, r.events, id) && ShareAnnounced(r.shares, r.events, id);
  }

  /** Supersession over all runs: no chain cycles, leaves its workspace, or dangles. */
  lemma ChainsAreWellFounded(ops: seq<Op>, id: Uuid) returns (chain: seq<Uuid>)
    requires var r := Run(EMPTY_REGISTRY, ops); id in r.memories && r.memories[id].lifecycle == Superseded
    ensures var memories := Run(EMPTY_REGISTRY, ops).memories;
      && |chain| >= 2 && chain[0] == id && IsChain(memories, chain, memories[id].scope)
    ensures forall i, j :: 0 <= i < j < |chain| ==> chain[i] != chain[j]
  {
    hide Run, MemoriesValid, SharesValid;
    EmptyIsValid();
    RunKeepsRegistry(EMPTY_REGISTRY, ops);
    var r := Run(EMPTY_REGISTRY, ops);
    chain := SupersessionTerminates(r.memories, r.events, id);
  }

  /** Grant uniqueness over all runs. */
  lemma GrantsAreUnique(ops: seq<Op>, a: Uuid, b: Uuid)
    requires var shares := Run(EMPTY_REGISTRY, ops).shares;
      && a in shares && b in shares && shares[a].scope == shares[b].scope && shares[a].memoryId == shares[b].memoryId
      && StableKey(shares[a].audience) == StableKey(shares[b].audience)
      && IsOpen(shares[a].state) && IsOpen(shares[b].state)
    ensures a == b
  {
    hide Run, MemoriesValid, StableKey;
    EmptyIsValid();
    RunKeepsRegistry(EMPTY_REGISTRY, ops);
    var shares := Run(EMPTY_REGISTRY, ops).shares;
    StableKeyIdentifies(shares[a].audience, shares[b].audience);
    assert SameGrant(shares[a], shares[b]);
  }

  lemma ClosedStaysClosed(r: Registry, op: Op, id: Uuid)
    requires id in r.shares && !IsOpen(r.shares[id].state)
    ensures id in Apply(r, op).shares && Apply(r, op).shares[id] == r.shares[id]
  {
    hide CheckScope, CheckProposal, CheckTransition, ValidateMemory, InOrder;
  }

  /** A rejected or revoked grant never exposes its memory to anyone again, whatever happens next. */
  lemma {:induction false} ClosedGrantsNeverExpose(r: Registry, ops: seq<Op>, id: Uuid, requestWorkspace: string,
                                                   subject: Uuid, kind: SubjectKind, now: nat)
    requires id in r.shares && !IsOpen(r.shares[id].state)
    ensures id in Run(r, ops).shares && Run(r, ops).shares[id] == r.shares[id]
    ensures !IsActiveFor(Run(r, ops).shares[id], requestWorkspace, subject, kind, now)
    decreases |ops|
  {
    hide Apply;
    if ops != [] {
      ClosedStaysClosed(r, ops[0], id);
      ClosedGrantsNeverExpose(Apply(r, ops[0]), ops[1..], id, requestWorkspace, subject, kind, now);
    }
  }
}
