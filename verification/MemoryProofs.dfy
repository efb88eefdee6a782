/** Every interleaving of creation, transition and expiry keeps versions, events and supersession chains sound. */
module MemoryProofs {
  import opened Basics
  import opened GovernanceTypes
  import opened MemorySpec

  // ------------------------------------------------- one memory changes

  /** How a memory may differ between two states. */
  predicate Evolves(m: Memory, m': Memory) {
    m' == m || (m'.scope == m.scope && IsValidTransition(m.lifecycle, m'.lifecycle))
  }

  /** Every superseded memory of the new state that was not one before points at a published memory. */
  ghost predicate Supersedes(memories: map<Uuid, Memory>, memories': map<Uuid, Memory>) {
    && (forall id :: id in memories ==> id in memories' && Evolves(memories[id], memories'[id]))
    && (forall id :: NewlySuperseded(memories, memories', id) ==> Replaced(memories', id))
  }

  predicate NewlySuperseded(memories: map<Uuid, Memory>, memories': map<Uuid, Memory>, id: Uuid) {
    && id in memories' && memories'[id].lifecycle == Superseded
    && (id !in memories || memories[id].lifecycle != Superseded)
  }

  ghost predicate Replaced(memories: map<Uuid, Memory>, id: Uuid)
    requires id in memories
  {
    memories[id].supersededBy.Some? && Leads(memories, memories[id].supersededBy.value, memories[id].scope, 0)
  }

  /** A chain survives: its end may move on, but then it is expired or replaced. */
  lemma {:induction false} ChainSurvives(memories: map<Uuid, Memory>, memories': map<Uuid, Memory>, id: Uuid,
                                         scope: Scope, steps: nat) returns (steps': nat)
    requires Supersedes(memories, memories') && Leads(memories, id, scope, steps)
    ensures Leads(memories', id, scope, steps')
    decreases steps
  {
    assert Evolves(memories[id], memories'[id]);
    if steps == 0 {
      if NewlySuperseded(memories, memories', id) {
        assert Replaced(memories', id);
        steps' := 1;
      } else {
        steps' := 0;
      }
    } else {
      var rest := ChainSurvives(memories, memories', memories[id].supersededBy.value, scope, steps - 1);
      steps' := rest + 1;
    }
  }

  lemma ChainsSurvive(memories: map<Uuid, Memory>, memories': map<Uuid, Memory>)
    requires ChainsEnd(memories) && Supersedes(memories, memories')
    ensures ChainsEnd(memories')
  {
    hide Leads, Evolves;
    forall id | id in memories' && memories'[id].lifecycle == Superseded
      ensures HasEnd(memories', id)
    {
      ChainSurvivesAt(memories, memories', id);
    }
  }

  lemma ChainSurvivesAt(memories: map<Uuid, Memory>, memories': map<Uuid, Memory>, id: Uuid)
    requires ChainsEnd(memories) && Supersedes(memories, memories')
    requires id in memories' && memories'[id].lifecycle == Superseded
    ensures HasEnd(memories', id)
  {
    if id in memories && memories[id].lifecycle == Superseded {
      assert HasEnd(memories, id) && Evolves(memories[id], memories'[id]);
      var steps: nat :| Leads(memories, id, memories[id].scope, steps);
      var steps' := ChainSurvives(memories, memories', id, memories[id].scope, steps);
    } else {
      assert NewlySuperseded(memories, memories', id) && Replaced(memories', id);
      assert Leads(memories', id, memories'[id].scope, 1);
    }
  }

  // ------------------------------------------------- every operation

  lemma CreateKeepsValid(r: Registry, new': NewMemory, id: Uuid, now: nat)
    requires MemoriesValid(r.memories, r.events) && id !in r.memories
    ensures var (r', res) := Create(r, new', id, now);
      && MemoriesValid(r'.memories, r'.events)
      && r'.shares == r.shares && (res.Err? ==> r' == r)
      && (res.Ok? ==> id in r'.memories && r'.memories[id] == res.value && res.value.version == 1)
  {
    hide ChainsEnd, ValidateMemory;
    var (r', res) := Create(r, new', id, now);
    if res.Ok? {
      var e := r'.events[|r.events|];
      forall other
        ensures Announced(r'.memories, r'.events, other)
      {
        assert Announced(r.memories, r.events, other);
        VersionsSnoc(r.events, e, MemorySubject(other));
        CountOneMore(0);
      }
      ChainsSurvive(r.memories, r'.memories);
    }
  }

  // ------------------------------------------------- when a transition is accepted

  /** The expiry, if there is one, lies in the future and at most 365 days ahead. */
  predicate ExpiryAllowed(expiresAt: Option<nat>, now: nat) {
    match expiresAt
    case None => true
    case Some(at) => now < at <= now + 31_536_000_000
  }

  predicate Unexpired(expiresAt: Option<nat>, now: nat) {
    match expiresAt
    case None => true
    case Some(at) => now < at
  }

  /** The six moves of the life cycle. */
  predicate Moves(from: Lifecycle, to: Lifecycle) {
    || (from == Proposed && to == Validated)
    || (from == Validated && to == Published)
    || (from == Published && to == Superseded)
    || (from == Proposed && to == Expired)
    || (from == Validated && to == Expired)
    || (from == Published && to == Expired)
  }

  /** A superseded memory names another one that is published and unexpired in the same workspace. */
  predicate ReplacementAllowed(memories: map<Uuid, Memory>, id: Uuid, scope: Scope, change: Change, now: nat) {
    change.lifecycle == Superseded ==>
      match change.supersededBy
      case None => false
      case Some(other) =>
        && other != id && other in memories && memories[other].scope == scope
        && memories[other].lifecycle == Published && Unexpired(memories[other].expiresAt, now)
  }

  /** A transition is accepted exactly under these conditions, and then writes exactly this row and this event. */
  lemma TransitionIs(r: Registry, id: Uuid, scope: Scope, change: Change, now: nat)
    requires MemoriesValid(r.memories, r.events)
    ensures var (r', res) := Transition(r, id, scope, change, now);
      && (res == Ok(None) <==> id !in r.memories)
      && ((res.Ok? && res.value.Some?) <==>
            && id in r.memories && r.memories[id].scope == scope
            && Moves(r.memories[id].lifecycle, change.lifecycle)
            && ReplacementAllowed(r.memories, id, scope, change, now) && ExpiryAllowed(change.expiresAt, now))
      && (if res.Ok? && res.value.Some? then
            var m := r.memories[id];
            var expiresAt := if change.expiresAt == None then m.expiresAt else change.expiresAt;
            var m' := m.(lifecycle := change.lifecycle, expiresAt := expiresAt, supersededBy := change.supersededBy,
                         retention := if expiresAt == None then m.retention else ExpireAt, updatedAt := now,
                         version := m.version + 1);
            && res.value.value == m'
            && r' == Registry(r.memories[id := m'], r.shares,
                              r.events + [Event(MemoryLifecycleChanged, MemorySubject(id), scope, m.version + 1)])
          else r' == r)
  {
    hide ChainsEnd;
    if id in r.memories { assert MemoryFits(r.memories[id], id); }
  }

  /** Which refusal a caller sees: the first of these that applies. */
  lemma TransitionRefusal(r: Registry, id: Uuid, scope: Scope, change: Change, now: nat)
    requires MemoriesValid(r.memories, r.events) && id in r.memories
    ensures var res := Transition(r, id, scope, change, now).1;
      if r.memories[id].scope != scope then res == Err(WrongWorkspace)
      else if !Moves(r.memories[id].lifecycle, change.lifecycle) then res == Err(InvalidTransition)
      else if !ReplacementAllowed(r.memories, id, scope, change, now) then
        match change.supersededBy
        case None => res == Err(MissingReplacement)
        case Some(other) =>
          if other == id then res == Err(SelfSupersession)
          else if other !in r.memories then res == Err(MissingReplacement)
          else if r.memories[other].scope != scope then res == Err(WrongWorkspace)
          else res == Err(ReplacementNotPublished)
      else match change.expiresAt
           case None => res.Ok?
           case Some(at) => if at <= now then res == Err(ExpiryInThePast)
                            else if at > now + 31_536_000_000 then res == Err(RetentionTooLong)
                            else res.Ok?
  {
    hide ChainsEnd;
    assert MemoryFits(r.memories[id], id);
  }

  lemma TransitionKeepsValid(r: Registry, id: Uuid, scope: Scope, change: Change, now: nat)
    requires MemoriesValid(r.memories, r.events)
    ensures var (r', res) := Transition(r, id, scope, change, now);
      && MemoriesValid(r'.memories, r'.events)
      && r'.shares == r.shares && (res.Err? || res.value.None? ==> r' == r)
      && ((res.Ok? && res.value.Some?) <==>
            && id in r.memories && r.memories[id].scope == scope
            && Moves(r.memories[id].lifecycle, change.lifecycle)
            && ReplacementAllowed(r.memories, id, scope, change, now) && ExpiryAllowed(change.expiresAt, now))
  {
    hide ChainsEnd, CheckExpiry, Leads, Moves, ReplacementAllowed, ExpiryAllowed;
    TransitionIs(r, id, scope, change, now);
    var (r', res) := Transition(r, id, scope, change, now);
    if res.Ok? && res.value.Some? {
      var m, m' := r.memories[id], r'.memories[id];
      assert MemoryFits(m, id);
      var e := r'.events[|r.events|];
      forall other
        ensures Announced(r'.memories, r'.events, other)
      {
        assert Announced(r.memories, r.events, other);
        VersionsSnoc(r.events, e, MemorySubject(other));
        CountOneMore(m.version);
      }
      TransitionSupersedes(r, id, scope, change, now);
      ChainsSurvive(r.memories, r'.memories);
    }
  }

  lemma TransitionSupersedes(r: Registry, id: Uuid, scope: Scope, change: Change, now: nat)
    requires MemoriesValid(r.memories, r.events)
    ensures Supersedes(r.memories, Transition(r, id, scope, change, now).0.memories)
  {
    hide ChainsEnd, CheckExpiry;
    assert id in r.memories ==> MemoryFits(r.memories[id], id);
  }

  lemma ExpireKeepsValid(r: Registry, now: nat)
    requires MemoriesValid(r.memories, r.events)
    ensures MemoriesValid(Expire(r, now).memories, Expire(r, now).events) && Expire(r, now).shares == r.shares
    ensures forall id :: id in Expire(r, now).memories ==> !IsDue(Expire(r, now).memories[id], now)
  {
    hide ChainsEnd, InOrder, Ascending, ExpiryEvents;
    var r' := Expire(r, now);
    var due := InOrder(DueMemories(r.memories, now));
    forall id
      ensures Announced(r'.memories, r'.events, id)
    {
      assert Announced(r.memories, r.events, id);
      VersionsAppend(r.events, ExpiryEvents(r.memories, due), MemorySubject(id));
      ExpiryVersions(r.memories, due, id);
      if id in r.memories { CountOneMore(r.memories[id].version); }
    }
    ExpireSupersedes(r, now);
    ChainsSurvive(r.memories, r'.memories);
    assert forall id :: id in r.memories ==> MemoryFits(r.memories[id], id);
  }

  lemma ExpireSupersedes(r: Registry, now: nat)
    ensures Supersedes(r.memories, Expire(r, now).memories)
  {
    hide InOrder, ExpiryEvents;
  }

  /** An expiry pass announces each due memory once. */
  lemma {:induction false} ExpiryVersions(memories: map<Uuid, Memory>, due: seq<Uuid>, id: Uuid)
    requires Ascending(due) && forall d :: d in due ==> d in memories
    ensures Versions(ExpiryEvents(memories, due), MemorySubject(id))
         == if id in due then [memories[id].version + 1] else []
  {
    hide Ascending;
    if due != [] {
      var n := |due| - 1;
      LastIsNew(due);
      ExpiryVersions(memories, due[..n], id);
      assert ExpiryEvents(memories, due)[..n] == ExpiryEvents(memories, due[..n]);
    }
  }

  lemma LastIsNew(keys: seq<Uuid>)
    requires keys != [] && Ascending(keys)
    ensures Ascending(keys[..|keys| - 1]) && keys[|keys| - 1] !in keys[..|keys| - 1]
    ensures forall k :: k in keys <==> k in keys[..|keys| - 1] || k == keys[|keys| - 1]
  {
  }

  // ------------------------------------------------- chains

  /** The number of links to the end of a chain is unique. */
  lemma {:induction false} EndIsUnique(memories: map<Uuid, Memory>, id: Uuid, scope: Scope, i: nat, j: nat)
    requires Leads(memories, id, scope, i) && Leads(memories, id, scope, j)
    ensures i == j
    decreases i
  {
    if i > 0 && j > 0 {
      EndIsUnique(memories, memories[id].supersededBy.value, scope, i - 1, j - 1);
    }
  }

  /** `chain` follows `superseded_by` from one memory to the next. */
  ghost predicate IsChain(memories: map<Uuid, Memory>, chain: seq<Uuid>, scope: Scope) {
    && chain != []
    && (forall i :: 0 <= i < |chain| ==> chain[i] in memories && memories[chain[i]].scope == scope)
    && (forall i :: 0 <= i < |chain| - 1 ==> LinksTo(memories, chain[i], chain[i + 1]))
    && EndsWell(memories, chain[|chain| - 1])
  }

  predicate LinksTo(memories: map<Uuid, Memory>, id: Uuid, next: Uuid) {
    id in memories && memories[id].lifecycle == Superseded && memories[id].supersededBy == Some(next)
  }

  predicate EndsWell(memories: map<Uuid, Memory>, id: Uuid) {
    id in memories && (memories[id].lifecycle == Published || memories[id].lifecycle == Expired)
  }

  lemma {:induction false} FollowChain(memories: map<Uuid, Memory>, id: Uuid, scope: Scope, steps: nat)
    returns (chain: seq<Uuid>)
    requires Leads(memories, id, scope, steps)
    ensures |chain| == steps + 1 && chain[0] == id && IsChain(memories, chain, scope)
    ensures forall i :: 0 <= i < |chain| ==> Leads(memories, chain[i], scope, steps - i)
    decreases steps
  {
    if steps == 0 {
      chain := [id];
    } else {
      var rest := FollowChain(memories, memories[id].supersededBy.value, scope, steps - 1);
      chain := [id] + rest;
      assert forall i :: 1 <= i < |chain| ==> chain[i] == rest[i - 1];
    }
  }

  /**
   * Following `superseded_by` from a superseded memory never cycles: the chain visits no memory twice,
   * stays in one workspace and ends in a published or expired memory.
   */
  lemma SupersessionTerminates(memories: map<Uuid, Memory>, events: seq<Event>, id: Uuid) returns (chain: seq<Uuid>)
    requires MemoriesValid(memories, events) && id in memories && memories[id].lifecycle == Superseded
    ensures |chain| >= 2 && chain[0] == id && IsChain(memories, chain, memories[id].scope)
    ensures forall i, j :: 0 <= i < j < |chain| ==> chain[i] != chain[j]
  {
    hide Announced, MemoryFits, Leads, IsChain;
    assert HasEnd(memories, id);
    var scope := memories[id].scope;
    var steps: nat :| Leads(memories, id, scope, steps);
    NotAnEnd(memories, id, scope);
    chain := FollowChain(memories, id, scope, steps);
    forall i, j | 0 <= i < j < |chain|
      ensures chain[i] != chain[j]
    {
      if chain[i] == chain[j] {
        EndIsUnique(memories, chain[i], scope, steps - i, steps - j);
        assert false;
      }
    }
  }

  lemma NotAnEnd(memories: map<Uuid, Memory>, id: Uuid, scope: Scope)
    requires id in memories && memories[id].lifecycle == Superseded
    ensures !Leads(memories, id, scope, 0)
  {
  }
}
