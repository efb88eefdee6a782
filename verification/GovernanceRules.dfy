/** When the operations on memories and grants are accepted, and what they write, on the fields. */
module GovernanceRules {
  import opened Basics
  import opened GovernanceTypes
  import opened MemorySpec
  import opened MemoryProofs
  import opened ShareSpec
  import opened GovernanceRuns
  import Admission
  import ShareProofs
  import Text
  import Chunker

  // ------------------------------------------------- memories

  /** A creation is accepted exactly for well-formed content, and then writes exactly this row and this event. */
  lemma CreateIs(r: Registry, new': NewMemory, id: Uuid, now: nat)
    ensures var (r', res) := Create(r, new', id, now);
      && (res.Ok? <==>
            && Admission.HasText(new'.scope.organization) && Admission.HasText(new'.scope.workspace)
            && Admission.HasText(new'.content) && 0.0 <= new'.confidence <= 1.0 && ExpiryAllowed(new'.expiresAt, now))
      && (if res.Ok? then
            var m := Memory(id, new'.scope, new'.content, new'.source, Sha256(new'.content), new'.confidence, Proposed,
                            now, new'.expiresAt, None, 1, if new'.expiresAt == None then Indefinite else ExpireAt);
            && res.value == m
            && r' == Registry(r.memories[id := m], r.shares,
                              r.events + [Event(MemoryProposed, MemorySubject(id), new'.scope, 1)])
          else r' == r)
  {
    hide Chunker.IsBlank, Admission.HasText;
    Admission.BlankIff(new'.scope.organization);
    Admission.BlankIff(new'.scope.workspace);
    Admission.BlankIff(new'.content);
  }

  /** An expiry pass expires exactly the open memories whose time has come and leaves every other row alone. */
  lemma ExpireIs(r: Registry, now: nat)
    ensures var r' := Expire(r, now);
      && r'.memories.Keys == r.memories.Keys && r'.shares == r.shares
      && forall id :: id in r.memories ==>
           var m := r.memories[id];
           r'.memories[id] ==
             if m.lifecycle != Superseded && m.lifecycle != Expired && !Unexpired(m.expiresAt, now)
             then m.(lifecycle := Expired, updatedAt := now, version := m.version + 1) else m
  {
    hide InOrder;
  }

  // ------------------------------------------------- grants

  /** A pending or approved grant of the same memory to the same audience. */
  ghost predicate AlreadyGranted(shares: map<Uuid, Share>, scope: Scope, memoryId: Uuid, audience: Audience) {
    exists s :: s in shares && shares[s].scope == scope && shares[s].memoryId == memoryId
                && shares[s].audience == audience && (shares[s].state == Pending || shares[s].state == Approved)
  }

  lemma DuplicatesAre(share: Share, scope: Scope, memoryId: Uuid, audience: Audience)
    ensures Duplicates(share, scope, memoryId, audience) <==>
              share.scope == scope && share.memoryId == memoryId && share.audience == audience
              && (share.state == Pending || share.state == Approved)
  {
    hide StableKey;
    ShareProofs.StableKeyIdentifies(share.audience, audience);
  }

  predicate PublishedHere(memories: map<Uuid, Memory>, memoryId: Uuid, scope: Scope, now: nat) {
    && memoryId in memories && memories[memoryId].scope == scope
    && memories[memoryId].lifecycle == Published && Unexpired(memories[memoryId].expiresAt, now)
  }

  /** A proposal is accepted exactly under these conditions, and then writes exactly this row and this event. */
  lemma ProposeIs(r: Registry, id: Uuid, scope: Scope, memoryId: Uuid, audience: Audience, proposedBy: Uuid,
                  expiresAt: Option<nat>, now: nat)
    ensures var (r', res) := Propose(r, id, scope, memoryId, audience, proposedBy, expiresAt, now);
      && (res.Ok? <==>
            && Admission.HasText(scope.organization) && Admission.HasText(scope.workspace)
            && (audience.Workspace? ==> Admission.HasText(audience.workspace)) && ExpiryAllowed(expiresAt, now)
            && PublishedHere(r.memories, memoryId, scope, now)
            && !AlreadyGranted(r.shares, scope, memoryId, audience))
      && (if res.Ok? then
            var share := Share(id, scope, memoryId, audience, Pending, proposedBy, None, None,
                               r.memories[memoryId].version, expiresAt, now, 1);
            && res.value == share
            && r' == Registry(r.memories, r.shares[id := share],
                              r.events + [Event(ShareProposed, ShareSubject(id), scope, 1)])
          else r' == r)
  {
    hide Chunker.IsBlank, Admission.HasText, Duplicates;
    Admission.BlankIff(scope.organization);
    Admission.BlankIff(scope.workspace);
    if audience.Workspace? { Admission.BlankIff(audience.workspace); }
    forall s | s in r.shares
      ensures Duplicates(r.shares[s], scope, memoryId, audience) <==>
                r.shares[s].scope == scope && r.shares[s].memoryId == memoryId && r.shares[s].audience == audience
                && (r.shares[s].state == Pending || r.shares[s].state == Approved)
    {
      DuplicatesAre(r.shares[s], scope, memoryId, audience);
    }
  }

  /** A review is accepted exactly for one of four moves, and approval only while the memory is published. */
  lemma ReviewIs(r: Registry, id: Uuid, scope: Scope, state: ReviewState, reviewedBy: Uuid, note: Option<string>,
                 now: nat)
    ensures var (r', res) := Review(r, id, scope, state, reviewedBy, note, now);
      && ((res.Ok? && res.value.Some?) <==>
            && Admission.HasText(scope.organization) && Admission.HasText(scope.workspace)
            && (note == None || |Text.EncodeAll(note.value)| <= 1_024)
            && id in r.shares && r.shares[id].scope == scope
            && var from := r.shares[id].state;
               || (from == Pending && state == Approved && PublishedHere(r.memories, r.shares[id].memoryId, scope, now))
               || (from == Pending && state == Rejected)
               || (from == Pending && state == Revoked)
               || (from == Approved && state == Revoked))
      && (if res.Ok? && res.value.Some? then
            var share := r.shares[id];
            var kept := if note != None && Admission.HasText(note.value) then note else None;
            var share' := share.(state := state, reviewedBy := Some(reviewedBy), note := kept, updatedAt := now,
                                 version := share.version + 1);
            && res.value.value == share'
            && r' == Registry(r.memories, r.shares[id := share'],
                              r.events + [Event(ShareReviewed, ShareSubject(id), scope, share.version + 1)])
          else r' == r)
  {
    hide Chunker.IsBlank, Admission.HasText, Text.EncodeAll;
    Admission.BlankIff(scope.organization);
    Admission.BlankIff(scope.workspace);
    if note.Some? { Admission.BlankIff(note.value); }
  }

  // ------------------------------------------------- every stage is reached

  const DESK := Scope("o", "w")

  function Note(): NewMemory {
    NewMemory(DESK, "n", None, 1.0, None)
  }

  function To(stage: Lifecycle): Change {
    Change(stage, None, None)
  }

  /** Two memories are published, the first is superseded by the second, and the second expires. */
  function LifeOf(): seq<Op> {
    [CreateOp(Note(), 1, 0), CreateOp(Note(), 2, 0),
     TransitionOp(1, DESK, To(Validated), 1), TransitionOp(2, DESK, To(Validated), 1),
     TransitionOp(1, DESK, To(Published), 2), TransitionOp(2, DESK, To(Published), 2),
     TransitionOp(1, DESK, Change(Superseded, None, Some(2)), 3), TransitionOp(2, DESK, To(Expired), 4)]
  }

  function StageAfter(n: nat, id: Uuid): Option<Lifecycle>
    requires n <= |LifeOf()|
  {
    var memories := Run(EMPTY_REGISTRY, LifeOf()[..n]).memories;
    if id in memories then Some(memories[id].lifecycle) else None
  }

  lemma {:induction false} RunSnoc(r: Registry, ops: seq<Op>, op: Op)
    ensures Run(r, ops + [op]) == Apply(Run(r, ops), op)
    decreases |ops|
  {
    hide Apply;
    if ops == [] {
      assert ([] + [op])[1..] == [];
    } else {
      RunSnoc(Apply(r, ops[0]), ops[1..], op);
      assert (ops + [op])[1..] == ops[1..] + [op];
    }
  }

  /** The run step by step: one operation more. */
  lemma OneStep(n: nat)
    requires n < |LifeOf()|
    ensures Run(EMPTY_REGISTRY, LifeOf()[..n + 1]) == Apply(Run(EMPTY_REGISTRY, LifeOf()[..n]), LifeOf()[n])
  {
    hide Apply, LifeOf;
    RunSnoc(EMPTY_REGISTRY, LifeOf()[..n], LifeOf()[n]);
    assert LifeOf()[..n + 1] == LifeOf()[..n] + [LifeOf()[n]];
  }

  lemma NoteIsText()
    ensures Admission.HasText("o") && Admission.HasText("w") && Admission.HasText("n")
  {
    assert "o"[0] == 'o' && "w"[0] == 'w' && "n"[0] == 'n';
  }

  ghost predicate IsNote(r: Registry, id: Uuid, stage: Lifecycle) {
    && id in r.memories && r.memories[id].scope == DESK && r.memories[id].lifecycle == stage
    && r.memories[id].expiresAt == None
  }

  lemma BothAreValidated()
    ensures StageAfter(2, 1) == Some(Proposed)
    ensures var r := Run(EMPTY_REGISTRY, LifeOf()[..4]); IsNote(r, 1, Validated) && IsNote(r, 2, Validated)
  {
    hide Create, Transition, MemoriesValid, Admission.HasText, Run;
    NoteIsText();
    var r1 := Step(0);
    CreateIs(EMPTY_REGISTRY, Note(), 1, 0);
    var r2 := Step(1);
    CreateIs(r1, Note(), 2, 0);
    var r3 := Step(2);
    TransitionIs(r2, 1, DESK, To(Validated), 1);
    var r4 := Step(3);
    TransitionIs(r3, 2, DESK, To(Validated), 1);
  }

  /** Every stage of the life cycle is reached, the superseded one too. */
  lemma EveryStageIsReached()
    ensures StageAfter(2, 1) == Some(Proposed)
    ensures StageAfter(4, 1) == Some(Validated)
    ensures StageAfter(6, 1) == Some(Published)
    ensures StageAfter(7, 1) == Some(Superseded)
    ensures StageAfter(8, 2) == Some(Expired)
  {
    hide Create, Transition, MemoriesValid, Run;
    BothAreValidated();
    var r4 := Step(3);
    var r5 := Step(4);
    TransitionIs(r4, 1, DESK, To(Published), 2);
    var r6 := Step(5);
    TransitionIs(r5, 2, DESK, To(Published), 2);
    var r7 := Step(6);
    TransitionIs(r6, 1, DESK, Change(Superseded, None, Some(2)), 3);
    var r8 := Step(7);
    TransitionIs(r7, 2, DESK, To(Expired), 4);
  }

  lemma Step(n: nat) returns (r: Registry)
    requires n < |LifeOf()|
    ensures r == Run(EMPTY_REGISTRY, LifeOf()[..n + 1]) == Apply(Run(EMPTY_REGISTRY, LifeOf()[..n]), LifeOf()[n])
    ensures MemoriesValid(r.memories, r.events)
    ensures Run(EMPTY_REGISTRY, LifeOf()[..0]) == EMPTY_REGISTRY
  {
    hide Apply, LifeOf, MemoriesValid, SharesValid;
    OneStep(n);
    r := Run(EMPTY_REGISTRY, LifeOf()[..n + 1]);
    EmptyIsValid();
    RunKeepsRegistry(EMPTY_REGISTRY, LifeOf()[..n + 1]);
    assert LifeOf()[..0] == [];
  }
}
