/** The governance methods of the store: the memory and grant tables updated in place, with their events. */
module Governance {
  import opened Basics
  import opened GovernanceTypes
  import opened MemorySpec
  import opened MemoryProofs
  import opened ShareSpec
  import opened GovernanceRuns
  import opened ContextPackage
  import opened QueryScore
  import opened PackageTheorems
  import opened StoreTypes
  import opened StoreSpec
  import Retrieval
  import Quotas
  import Text
  import Chunker

  class GovernanceStore {
    var memories: map<Uuid, Memory>
    var shares: map<Uuid, Share>
    var events: seq<Event>

    function View(): Registry
      reads this
    {
      Registry(memories, shares, events)
    }

    ghost predicate Valid()
      reads this
    {
      RegistryValid(View())
    }

    constructor ()
      ensures Valid() && View() == EMPTY_REGISTRY
    {
      memories, shares, events := map[], map[], [];
      new;
      EmptyIsValid();
    }

    method CreateMemory(new': NewMemory, id: Uuid, now: nat) returns (r: Result<Memory>)
      requires Valid() && id !in memories
      modifies this
      ensures Valid() && View() == Apply(old(View()), CreateOp(new', id, now))
      ensures r == Create(old(View()), new', id, now).1
    {
      hide RegistryValid, Chunker.IsBlank;
      ApplyKeepsRegistry(View(), CreateOp(new', id, now));
      if Chunker.IsBlank(new'.scope.organization) || Chunker.IsBlank(new'.scope.workspace) { return Err(EmptyScope); }
      if Chunker.IsBlank(new'.content) { return Err(EmptyContent); }
      if !(0.0 <= new'.confidence <= 1.0) { return Err(InvalidConfidence); }
      if new'.expiresAt.Some? {
        if new'.expiresAt.value <= now { return Err(ExpiryInThePast); }
        if new'.expiresAt.value - now > MAX_MEMORY_RETENTION_MS { return Err(RetentionTooLong); }
      }
      var memory := Memory(id, new'.scope, new'.content, new'.source, Sha256(new'.content), new'.confidence, Proposed,
                           now, new'.expiresAt, None, 1, if new'.expiresAt.Some? then ExpireAt else Indefinite);
      memories := memories[id := memory];
      events := events + [Event(MemoryProposed, MemorySubject(id), memory.scope, memory.version)];
      return Ok(memory);
    }

    method CreateMemoryWithLimits(new': NewMemory, limits: Quotas.Limits, id: Uuid, now: nat)
      returns (r: Result<Memory>)
      requires Valid() && id !in memories
      modifies this
      ensures Valid() && memories == Quotas.CreateLimited(old(memories), new', limits, id, now)
      ensures r.Err? ==> View() == old(View())
      ensures r.Ok? ==> View() == Apply(old(View()), CreateOp(new', id, now))
    {
      hide RegistryValid, ValidateMemory, Quotas.CheckMemory;
      var over := Quotas.EnforceMemoryLimits(memories, new', limits);
      if over.Some? { return Err(over.value); }
      r := CreateMemory(new', id, now);
    }

    method TransitionMemory(id: Uuid, scope: Scope, change: Change, now: nat) returns (r: Result<Option<Memory>>)
      requires Valid()
      modifies this
      ensures Valid() && View() == Apply(old(View()), TransitionOp(id, scope, change, now))
      ensures r == Transition(old(View()), id, scope, change, now).1
      ensures (r.Ok? && r.value.Some?) <==>
                && id in old(memories) && old(memories)[id].scope == scope
                && Moves(old(memories)[id].lifecycle, change.lifecycle)
                && ReplacementAllowed(old(memories), id, scope, change, now) && ExpiryAllowed(change.expiresAt, now)
    {
      hide RegistryValid, IsRetrievable, IsValidTransition, Moves, ReplacementAllowed, ExpiryAllowed;
      AcceptedIff(View(), id, scope, change, now);
      MemoryKnowsItself(View(), id);
      ApplyKeepsRegistry(View(), TransitionOp(id, scope, change, now));
      if id !in memories { return Ok(None); }
      var memory := memories[id];
      if memory.scope != scope { return Err(WrongWorkspace); }
      if !IsValidTransition(memory.lifecycle, change.lifecycle) { return Err(InvalidTransition); }
      if change.lifecycle == Superseded {
        if change.supersededBy.None? { return Err(MissingReplacement); }
        var replacement := change.supersededBy.value;
        if replacement == memory.id { return Err(SelfSupersession); }
        if replacement !in memories { return Err(MissingReplacement); }
        if memories[replacement].scope != scope { return Err(WrongWorkspace); }
        if !IsRetrievable(memories[replacement], now) { return Err(ReplacementNotPublished); }
      }
      if change.expiresAt.Some? {
        if change.expiresAt.value <= now { return Err(ExpiryInThePast); }
        if change.expiresAt.value - now > MAX_MEMORY_RETENTION_MS { return Err(RetentionTooLong); }
      }
      memory := memory.(lifecycle := change.lifecycle,
                        expiresAt := if change.expiresAt.Some? then change.expiresAt else memory.expiresAt);
      if memory.expiresAt.Some? { memory := memory.(retention := ExpireAt); }
      memory := memory.(supersededBy := change.supersededBy, updatedAt := now, version := memory.version + 1);
      memories := memories[id := memory];
      events := events + [Event(MemoryLifecycleChanged, MemorySubject(id), memory.scope, memory.version)];
      return Ok(Some(memory));
    }

    method ExpireDueMemories(now: nat) returns (expired: nat)
      requires Valid()
      modifies this
      ensures Valid() && View() == Apply(old(View()), ExpireOp(now))
      ensures expired == |DueMemories(old(memories), now)|
      ensures forall id :: id in memories ==> !IsDue(memories[id], now)
    {
      hide RegistryValid, DueMemories, IsDue, InOrder, Ascending, ExpireAll, Expire, ExpiryEvents;
      ghost var r := View();
      ApplyKeepsRegistry(r, ExpireOp(now));
      NoneDueAfter(r, now);
      var due := CollectDue(memories, now);
      ExpireIsExpireAll(r, due, now);
      var rows := ExpireRows(memories, due, now);
      memories, events := rows.0, events + rows.1;
      return |due|;
    }

    method ProposeMemoryShare(id: Uuid, scope: Scope, memoryId: Uuid, audience: Audience, proposedBy: Uuid,
                              expiresAt: Option<nat>, now: nat) returns (r: Result<Share>)
      requires Valid() && id !in shares
      modifies this
      ensures Valid()
      ensures View() == Apply(old(View()), ProposeOp(id, scope, memoryId, audience, proposedBy, expiresAt, now))
      ensures r == Propose(old(View()), id, scope, memoryId, audience, proposedBy, expiresAt, now).1
    {
      hide RegistryValid, CheckScope, ValidAudience, CheckExpiry, IsRetrievable, Duplicates;
      ApplyKeepsRegistry(View(), ProposeOp(id, scope, memoryId, audience, proposedBy, expiresAt, now));
      var badScope := CheckScope(scope);
      if badScope.Some? { return Err(badScope.value); }
      if !ValidAudience(audience) { return Err(InvalidAudience); }
      var badExpiry := CheckExpiry(expiresAt, now);
      if badExpiry.Some? { return Err(badExpiry.value); }
      if memoryId !in memories { return Err(MissingMemory); }
      if memories[memoryId].scope != scope { return Err(MissingMemory); }
      if !IsRetrievable(memories[memoryId], now) { return Err(NotRetrievable); }
      var duplicate := AnyDuplicate(shares, scope, memoryId, audience);
      if duplicate { return Err(DuplicateGrant); }
      var share := Share(id, scope, memoryId, audience, ReviewState.Pending, proposedBy, None, None,
                         memories[memoryId].version, expiresAt, now, 1);
      shares := shares[id := share];
      events := events + [Event(ShareProposed, ShareSubject(id), scope, share.version)];
      return Ok(share);
    }

    method ReviewMemoryShare(id: Uuid, scope: Scope, state: ReviewState, reviewedBy: Uuid, note: Option<string>,
                             now: nat)
      returns (r: Result<Option<Share>>)
      requires Valid()
      modifies this
      ensures Valid() && View() == Apply(old(View()), ReviewOp(id, scope, state, reviewedBy, note, now))
      ensures r == Review(old(View()), id, scope, state, reviewedBy, note, now).1
    {
      hide RegistryValid, CheckScope, IsRetrievable, Chunker.IsBlank, Text.Utf8Len, CanTransitionTo;
      ApplyKeepsRegistry(View(), ReviewOp(id, scope, state, reviewedBy, note, now));
      var badScope := CheckScope(scope);
      if badScope.Some? { return Err(badScope.value); }
      if note.Some? && Text.Utf8Len(note.value) > 1_024 { return Err(ReviewNoteTooLong); }
      if id !in shares { return Ok(None); }
      var share := shares[id];
      if share.scope != scope { return Err(WrongWorkspace); }
      if !CanTransitionTo(share.state, state) { return Err(InvalidTransition); }
      if state == Approved {
        if share.memoryId !in memories { return Err(MissingMemory); }
        var memory := memories[share.memoryId];
        if memory.scope != scope || !IsRetrievable(memory, now) { return Err(NotRetrievable); }
      }
      share := share.(state := state, reviewedBy := Some(reviewedBy));
      share := share.(note := if note.Some? && !Chunker.IsBlank(note.value) then note else None);
      share := share.(updatedAt := now, version := share.version + 1);
      shares := shares[id := share];
      events := events + [Event(ShareReviewed, ShareSubject(id), scope, share.version)];
      return Ok(Some(share));
    }

    /**
     * `compile_context_package`: due memories expire first, whatever the query. Documents are retrieved
     * only to rank local memories by their source; then the eligible memories are ranked and packed.
     */
    method CompileContextPackage(q: Request, query: string, budget: nat, limit: nat, s: Store, profile: Profile,
                                 searches: Retrieval.Searches)
      returns (r: Result<Package>, ghost trace: Retrieval.Trace, ghost ask: Ask, ghost ranked: seq<Candidate>)
      requires Valid() && StoreValid(s) && Retrieval.FromIndexes(s, ScopeOf(q), profile, searches)
      modifies this
      ensures Valid()
      ensures View() == if CheckScope(ScopeOf(q)).Some? || !(1 <= budget <= 8_192) then old(View())
                        else Apply(old(View()), ExpireOp(q.now))
      ensures r.Err? ==> Some(r.error) == Refusal(q, query, budget, s, searches)
      ensures r.Ok? ==> Refusal(q, query, budget, s, searches) == None
      ensures r.Ok? ==>
                && UniqueIds(s.chunks) && Retrieval.Searched(s, ScopeOf(q), query, searches, 50, trace)
                && Retrieval.IsRanking(s, ScopeOf(q), profile, trace)
                && ask.terms == Terms(query) && IsRankTable(SourcesOf(trace.Head(50)), ask.ranks)
      ensures r.Ok? ==>
                && IsRanking(ranked, memories, shares, ask, q)
                && r.value == Package(budget, TokensOf(r.value.items), Packed(Window(ranked, limit), budget, 0))
                && IsPackage(memories, shares, ask, q, ranked, limit, budget, r.value.items)
    {
      hide RegistryValid, Apply, IsRanking, Chunker.IsBlank, StoreValid, UniqueIds, Retrieval.Searched, Terms,
           Retrieval.IsRanking, Retrieval.FromIndexes, Retrieval.SearchFails, IsRankTable, CheckScope, IsPackage,
           NoneEmpty;
      ranked, ask := [], Ask([], map[]);
      trace := Retrieval.Trace(Retrieval.Found(map[], map[], map[]), 0, [], 0.0);
      var badScope := CheckScope(ScopeOf(q));
      if badScope.Some? { return Err(badScope.value), trace, ask, ranked; }
      if budget < 1 || budget > 8_192 { return Err(BudgetOutOfRange), trace, ask, ranked; }
      var expired := ExpireDueMemories(q.now);
      var terms := Terms(query);
      TermsAreWords(query);
      if terms == [] { return Err(EmptyQuery), trace, ask, ranked; }
      var hits;
      hits, trace := Retrieval.RetrieveChunks(s, ScopeOf(q), profile, query, searches, 50);
      if hits.Err? { return Err(hits.error), trace, ask, ranked; }
      var ranks := SourceRanks(SourcesOf(hits.value));
      var asked := Ask(terms, ranks);
      RowsKnowThemselves(View());
      var candidates := CollectCandidates(memories, shares, asked, q);
      var sorted := SortByRank(candidates);
      SortedIsRanking(sorted, candidates, memories, shares, asked, q);
      ask, ranked := asked, sorted;
      PackageIsExact(memories, shares, asked, SourcesOf(hits.value), q, sorted, limit, budget);
      var items, estimated := PackGreedily(Window(sorted, limit), budget);
      return Ok(Package(budget, estimated, items)), trace, ask, ranked;
    }
  }

  lemma TermsAreWords(query: string)
    ensures NoneEmpty(Terms(query))
  {
  }

  function ScopeOf(q: Request): Scope {
    Scope(q.principal.organization, q.workspace)
  }

  /** Why a package is refused; document retrieval that fails makes it fail. */
  function Refusal(q: Request, query: string, budget: nat, s: Store, searches: Retrieval.Searches): Option<Failure> {
    if CheckScope(ScopeOf(q)).Some? then CheckScope(ScopeOf(q))
    else if !(1 <= budget <= 8_192) then Some(BudgetOutOfRange)
    else if Terms(query) == [] || Chunker.IsBlank(query) then Some(EmptyQuery)
    else if Retrieval.SearchFails(s, ScopeOf(q), searches) then Some(SearchFailed)
    else None
  }

  function SourcesOf(hits: seq<Retrieval.Hit>): (sources: seq<Option<string>>)
    ensures |sources| == |hits| && forall i :: 0 <= i < |hits| ==> sources[i] == hits[i].source
  {
    seq(|hits|, i requires 0 <= i < |hits| => hits[i].source)
  }

  lemma AcceptedIff(r: Registry, id: Uuid, scope: Scope, change: Change, now: nat)
    requires RegistryValid(r)
    ensures var res := Transition(r, id, scope, change, now).1;
      (res.Ok? && res.value.Some?) <==>
        && id in r.memories && r.memories[id].scope == scope
        && Moves(r.memories[id].lifecycle, change.lifecycle)
        && ReplacementAllowed(r.memories, id, scope, change, now) && ExpiryAllowed(change.expiresAt, now)
  {
    hide Transition, Moves, ReplacementAllowed, ExpiryAllowed, MemoriesValid, SharesValid;
    TransitionKeepsValid(r, id, scope, change, now);
  }

  method AnyDuplicate(shares: map<Uuid, Share>, scope: Scope, memoryId: Uuid, audience: Audience) returns (found: bool)
    ensures found <==> exists s :: s in shares && Duplicates(shares[s], scope, memoryId, audience)
  {
    hide Duplicates;
    var keys := InOrder(shares.Keys);
    for i := 0 to |keys|
      invariant forall k :: 0 <= k < i ==> !Duplicates(shares[keys[k]], scope, memoryId, audience)
    {
      if Duplicates(shares[keys[i]], scope, memoryId, audience) { return true; }
    }
    return false;
  }

  method ExpireRows(memories: map<Uuid, Memory>, due: seq<Uuid>, now: nat) returns (r: (map<Uuid, Memory>, seq<Event>))
    requires Ascending(due) && forall id :: id in due ==> id in memories
    ensures r == (ExpireAll(memories, due, now), ExpiryEvents(memories, due))
  {
    hide Ascending, ExpireAll;
    var memories' := memories;
    var expired: seq<Memory> := [];
    assert ExpireAll(memories, due[..0], now) == memories by { ExpireNone(memories, due, now); }
    for i := 0 to |due|
      invariant memories' == ExpireAll(memories, due[..i], now)
      invariant |expired| == i && forall k :: 0 <= k < i ==> expired[k] == ExpiredMemory(memories[due[k]], now)
    {
      ExpireOneMore(memories, due, i, now);
      var memory := memories'[due[i]];
      memory := memory.(lifecycle := Expired, updatedAt := now, version := memory.version + 1);
      memories' := memories'[due[i] := memory];
      expired := expired + [memory];
    }
    var events := [];
    for i := 0 to |expired|
      invariant |events| == i && forall k :: 0 <= k < i ==> events[k] == ExpiryEvents(memories, due)[k]
    {
      events := events + [Event(MemoryLifecycleChanged, MemorySubject(due[i]), expired[i].scope, expired[i].version)];
    }
    assert due[..|due|] == due;
    assert events == ExpiryEvents(memories, due);
    return (memories', events);
  }

  lemma ExpireNone(memories: map<Uuid, Memory>, due: seq<Uuid>, now: nat)
    ensures ExpireAll(memories, due[..0], now) == memories
  {
  }

  /** The due memories in table order. */
  method CollectDue(memories: map<Uuid, Memory>, now: nat) returns (due: seq<Uuid>)
    ensures due == InOrder(DueMemories(memories, now))
  {
    hide IsDue, InOrder, Ascending;
    var keys := InOrder(memories.Keys);
    due := [];
    NothingAscends();
    for i := 0 to |keys|
      invariant Ascending(due) && forall id :: id in due <==> id in keys[..i] && IsDue(memories[id], now)
    {
      NextIsLarger(keys, i);
      if IsDue(memories[keys[i]], now) {
        LargerAscends(due, keys, i);
        due := due + [keys[i]];
      }
    }
    assert keys[..|keys|] == keys;
    AscendingIsUnique(due, InOrder(DueMemories(memories, now)));
  }

  lemma NothingAscends()
    ensures Ascending([])
  {
  }

  lemma LargerAscends(due: seq<Uuid>, keys: seq<Uuid>, i: nat)
    requires Ascending(due) && Ascending(keys) && i < |keys| && forall id :: id in due ==> id in keys[..i]
    ensures Ascending(due + [keys[i]])
  {
    forall k | 0 <= k < |due|
      ensures due[k] < keys[i]
    {
      assert due[k] in keys[..i];
    }
  }

  /** The memory table after the memories of `due` have expired. */
  function ExpireAll(memories: map<Uuid, Memory>, due: seq<Uuid>, now: nat): map<Uuid, Memory> {
    map id | id in memories :: if id in due then ExpiredMemory(memories[id], now) else memories[id]
  }

  lemma ExpireOneMore(memories: map<Uuid, Memory>, due: seq<Uuid>, i: nat, now: nat)
    requires i < |due| && due[i] in memories && Ascending(due)
    ensures ExpireAll(memories, due[..0], now) == memories
    ensures due[i] in ExpireAll(memories, due[..i], now)
            && ExpireAll(memories, due[..i], now)[due[i]] == memories[due[i]]
    ensures ExpireAll(memories, due[..i + 1], now)
         == ExpireAll(memories, due[..i], now)[due[i] := ExpiredMemory(memories[due[i]], now)]
  {
    NextIsLarger(due, i);
  }

  lemma ExpireIsExpireAll(r: Registry, due: seq<Uuid>, now: nat)
    requires due == InOrder(DueMemories(r.memories, now))
    ensures forall id :: id in due ==> id in r.memories
    ensures Expire(r, now) == r.(memories := ExpireAll(r.memories, due, now),
                                 events := r.events + ExpiryEvents(r.memories, due))
    ensures |due| == |DueMemories(r.memories, now)| && Ascending(due)
  {
    hide InOrder, Ascending, IsDue, ExpiryEvents;
    assert forall id :: id in due <==> id in DueMemories(r.memories, now);
    assert Expire(r, now).memories == ExpireAll(r.memories, due, now);
  }

  lemma NoneDueAfter(r: Registry, now: nat)
    requires RegistryValid(r)
    ensures forall id :: id in Expire(r, now).memories ==> !IsDue(Expire(r, now).memories[id], now)
  {
    ExpireKeepsValid(r, now);
  }

  lemma RowsKnowThemselves(r: Registry)
    requires RegistryValid(r)
    ensures forall m :: m in r.memories ==> r.memories[m].id == m
    ensures forall s :: s in r.shares ==> r.shares[s].id == s
  {
    hide ChainsEnd, UniqueGrants;
    assert forall m :: m in r.memories ==> MemoryFits(r.memories[m], m);
    assert forall s :: s in r.shares ==> ShareFits(r.shares[s], s);
  }

  lemma SortedIsRanking(sorted: seq<Candidate>, candidates: seq<Candidate>, memories: map<Uuid, Memory>,
                        shares: map<Uuid, Share>, ask: Ask, q: Request)
    requires forall i, j :: 0 <= i < j < |sorted| ==> Before(sorted[i], sorted[j])
    requires forall c :: c in sorted <==> c in candidates
    requires forall c :: c in candidates ==> IsCandidate(memories, shares, ask, q, c)
    requires forall id :: IsRelevant(memories, shares, ask, q, id) ==> Ranks(candidates, id)
    ensures IsRanking(sorted, memories, shares, ask, q)
  {
    hide IsCandidate, IsRelevant, Before;
    forall id | IsRelevant(memories, shares, ask, q, id)
      ensures Ranks(sorted, id)
    {
      var c :| c in candidates && c.memory.id == id;
      assert c in sorted;
    }
  }

  lemma MemoryKnowsItself(r: Registry, id: Uuid)
    requires RegistryValid(r)
    ensures id in r.memories ==> r.memories[id].id == id
  {
    assert id in r.memories ==> MemoryFits(r.memories[id], id);
  }
}
