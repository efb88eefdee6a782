/** The context package: eligible memories, ranked, cut to a window and packed greedily into a token budget. */
module ContextPackage {
  import opened Basics
  import opened GovernanceTypes
  import opened ShareSpec
  import opened Sorting
  import opened QueryScore
  import Text

  datatype Principal = Principal(id: Uuid, organization: string, kind: SubjectKind)

  /** Who asks, from where and when. */
  datatype Request = Request(principal: Principal, workspace: string, now: nat)

  datatype Candidate = Candidate(score: nat, memory: Memory, shareId: Option<Uuid>)

  datatype Item = Item(memoryId: Uuid, sourceWorkspace: string, content: string, score: nat, tokens: nat,
                       memoryVersion: nat, shareId: Option<Uuid>)

  datatype Package = Package(tokenBudget: nat, estimatedTokens: nat, items: seq<Item>)

  // ------------------------------------------------- eligibility

  predicate IsActive(share: Share, q: Request) {
    && share.scope.organization == q.principal.organization
    && IsActiveFor(share, q.workspace, q.principal.id, q.principal.kind, q.now)
  }

  predicate Covers(share: Share, m: Memory) {
    share.memoryId == m.id && share.scope.workspace == m.scope.workspace
  }

  /** An approved, unexpired grant of the caller's organization that permits the caller to see `m`. */
  predicate Exposes(share: Share, m: Memory, q: Request) {
    IsActive(share, q) && Covers(share, m)
  }

  predicate IsLocal(m: Memory, q: Request) {
    m.scope.workspace == q.workspace
  }

  ghost predicate IsEligible(shares: map<Uuid, Share>, m: Memory, q: Request) {
    && m.scope.organization == q.principal.organization && IsRetrievable(m, q.now)
    && (IsLocal(m, q) || exists s :: s in shares && Exposes(shares[s], m, q))
  }

  /** `shareId` is the evidence for showing `m`: none for a local memory, an exposing grant otherwise. */
  predicate Justifies(shares: map<Uuid, Share>, m: Memory, q: Request, shareId: Option<Uuid>) {
    if IsLocal(m, q) then shareId == None
    else shareId.Some? && shareId.value in shares && Exposes(shares[shareId.value], m, q)
  }

  function ScoreOf(ask: Ask, m: Memory, q: Request): nat {
    Score(ask, m, q.workspace)
  }

  // ------------------------------------------------- ranking

  predicate Before(a: Candidate, b: Candidate) {
    a.score > b.score || (a.score == b.score && a.memory.id < b.memory.id)
  }

  predicate IsCandidate(memories: map<Uuid, Memory>, shares: map<Uuid, Share>, ask: Ask, q: Request,
                        c: Candidate) {
    && c.memory.id in memories && memories[c.memory.id] == c.memory
    && c.memory.scope.organization == q.principal.organization && IsRetrievable(c.memory, q.now)
    && Justifies(shares, c.memory, q, c.shareId)
    && c.score == ScoreOf(ask, c.memory, q) && c.score > 0
  }

  predicate Ranks(ranked: seq<Candidate>, id: Uuid) {
    exists c :: c in ranked && c.memory.id == id
  }

  ghost predicate IsRelevant(memories: map<Uuid, Memory>, shares: map<Uuid, Share>, ask: Ask, q: Request, id: Uuid) {
    id in memories && IsEligible(shares, memories[id], q) && ScoreOf(ask, memories[id], q) > 0
  }

  /** Exactly the eligible memories with a positive score, best first, ties by id. */
  ghost predicate IsRanking(ranked: seq<Candidate>, memories: map<Uuid, Memory>, shares: map<Uuid, Share>,
                            ask: Ask, q: Request) {
    && (forall i, j :: 0 <= i < j < |ranked| ==> Before(ranked[i], ranked[j]))
    && (forall c :: c in ranked ==> IsCandidate(memories, shares, ask, q, c))
    && (forall id :: IsRelevant(memories, shares, ask, q, id) ==> Ranks(ranked, id))
  }

  function Window(ranked: seq<Candidate>, limit: nat): seq<Candidate> {
    var clamped := if limit < 1 then 1 else if limit > 50 then 50 else limit;
    if |ranked| <= clamped then ranked else ranked[..clamped]
  }

  // ------------------------------------------------- packing

  /** A quarter token per byte, rounded up, and at least one. */
  function Cost(m: Memory): nat {
    var tokens := (Text.Utf8Len(m.content) + 3) / 4;
    if tokens < 1 then 1 else tokens
  }

  function ItemOf(c: Candidate): Item {
    Item(c.memory.id, c.memory.scope.workspace, c.memory.content, c.score, Cost(c.memory), c.memory.version, c.shareId)
  }

  function Packed(window: seq<Candidate>, budget: nat, used: nat): seq<Item>
    decreases |window|
  {
    if window == [] then []
    else if used + Cost(window[0].memory) > budget then Packed(window[1..], budget, used)
    else [ItemOf(window[0])] + Packed(window[1..], budget, used + Cost(window[0].memory))
  }

  function TokensOf(items: seq<Item>): nat {
    if items == [] then 0 else items[0].tokens + TokensOf(items[1..])
  }

  ghost predicate Increasing(picks: seq<nat>) {
    forall a, b :: 0 <= a < b < |picks| ==> picks[a] < picks[b]
  }

  /** `items` are the window's entries at `picks`, in order. */
  ghost predicate PicksInOrder(window: seq<Candidate>, items: seq<Item>, picks: seq<nat>) {
    && |picks| == |items| && Increasing(picks)
    && forall k :: 0 <= k < |picks| ==> picks[k] < |window| && items[k] == ItemOf(window[picks[k]])
  }

  ghost predicate NothingElseFits(window: seq<Candidate>, budget: nat, spent: nat, picks: seq<nat>) {
    forall i :: 0 <= i < |window| && i !in picks ==> spent + Cost(window[i].memory) > budget
  }

  /** A packing within the budget to which nothing that was left out could be added. */
  ghost predicate IsMaximalPacking(window: seq<Candidate>, budget: nat, used: nat, items: seq<Item>, picks: seq<nat>) {
    && PicksInOrder(window, items, picks)
    && used + TokensOf(items) <= budget
    && NothingElseFits(window, budget, used + TokensOf(items), picks)
  }

  lemma {:induction false} PackedIsMaximal(window: seq<Candidate>, budget: nat, used: nat) returns (picks: seq<nat>)
    requires used <= budget
    ensures IsMaximalPacking(window, budget, used, Packed(window, budget, used), picks)
    decreases |window|
  {
    hide Cost, IsMaximalPacking;
    if window == [] {
      picks := [];
      NothingToPack(budget, used);
    } else if used + Cost(window[0].memory) > budget {
      var rest := PackedIsMaximal(window[1..], budget, used);
      picks := Shifted(rest);
      SkipFirst(window, budget, used, Packed(window[1..], budget, used), rest);
    } else {
      var cost := Cost(window[0].memory);
      var rest := PackedIsMaximal(window[1..], budget, used + cost);
      picks := [0] + Shifted(rest);
      TakeFirst(window, budget, used, Packed(window[1..], budget, used + cost), rest);
    }
  }

  lemma NothingToPack(budget: nat, used: nat)
    requires used <= budget
    ensures IsMaximalPacking([], budget, used, [], [])
  {
  }

  lemma SkipFirst(window: seq<Candidate>, budget: nat, used: nat, items: seq<Item>, rest: seq<nat>)
    requires window != [] && used + Cost(window[0].memory) > budget
    requires IsMaximalPacking(window[1..], budget, used, items, rest)
    ensures IsMaximalPacking(window, budget, used, items, Shifted(rest))
  {
    hide Cost, TokensOf, ItemOf, PicksInOrder, NothingElseFits;
    SkipKeepsOrder(window, items, rest);
    SkipFits(window, budget, used + TokensOf(items), rest);
  }

  lemma SkipKeepsOrder(window: seq<Candidate>, items: seq<Item>, rest: seq<nat>)
    requires window != [] && PicksInOrder(window[1..], items, rest)
    ensures PicksInOrder(window, items, Shifted(rest))
  {
    hide ItemOf;
  }

  lemma SkipFits(window: seq<Candidate>, budget: nat, spent: nat, rest: seq<nat>)
    requires window != [] && NothingElseFits(window[1..], budget, spent, rest)
    requires spent + Cost(window[0].memory) > budget
    ensures NothingElseFits(window, budget, spent, Shifted(rest))
  {
    hide Cost;
    forall i | 0 <= i < |window| && i !in Shifted(rest)
      ensures spent + Cost(window[i].memory) > budget
    {
      if i > 0 { NotShifted(rest, i); }
    }
  }

  lemma TakeFirst(window: seq<Candidate>, budget: nat, used: nat, items: seq<Item>, rest: seq<nat>)
    requires window != [] && IsMaximalPacking(window[1..], budget, used + Cost(window[0].memory), items, rest)
    ensures IsMaximalPacking(window, budget, used, [ItemOf(window[0])] + items, [0] + Shifted(rest))
  {
    hide Cost, PicksInOrder, NothingElseFits;
    var items' := [ItemOf(window[0])] + items;
    assert items'[1..] == items;
    TakeKeepsOrder(window, items, rest);
    TakeFits(window, budget, used + TokensOf(items'), rest);
  }

  lemma TakeKeepsOrder(window: seq<Candidate>, items: seq<Item>, rest: seq<nat>)
    requires window != [] && PicksInOrder(window[1..], items, rest)
    ensures PicksInOrder(window, [ItemOf(window[0])] + items, [0] + Shifted(rest))
  {
    hide ItemOf;
  }

  lemma TakeFits(window: seq<Candidate>, budget: nat, spent: nat, rest: seq<nat>)
    requires window != [] && NothingElseFits(window[1..], budget, spent, rest)
    ensures NothingElseFits(window, budget, spent, [0] + Shifted(rest))
  {
    hide Cost;
    var picks := [0] + Shifted(rest);
    forall i | 0 <= i < |window| && i !in picks
      ensures spent + Cost(window[i].memory) > budget
    {
      assert picks[0] == 0 && 0 in picks;
      NotShifted(rest, i);
    }
  }

  lemma NotShifted(rest: seq<nat>, i: nat)
    requires i > 0 && i !in Shifted(rest)
    ensures i - 1 !in rest
  {
    if i - 1 in rest { ShiftedHas(rest, i - 1); }
  }

  function Shifted(picks: seq<nat>): (r: seq<nat>)
    ensures |r| == |picks|
    ensures forall k :: 0 <= k < |picks| ==> r[k] == picks[k] + 1
  {
    seq(|picks|, k requires 0 <= k < |picks| => picks[k] + 1)
  }

  lemma ShiftedHas(picks: seq<nat>, p: nat)
    requires p in picks
    ensures p + 1 in Shifted(picks)
  {
    var k :| 0 <= k < |picks| && picks[k] == p;
    assert Shifted(picks)[k] == p + 1;
  }

  /**
   * What a caller may rely on: each item is a published, unexpired memory of the caller's organization,
   * local or exposed by the grant it names; no memory appears twice; the token counts add up, stay
   * within the budget, and no entry of the window that was left out would still fit.
   */
  lemma PackageIsSound(memories: map<Uuid, Memory>, shares: map<Uuid, Share>, ask: Ask, q: Request,
                       ranked: seq<Candidate>, limit: nat, budget: nat) returns (picks: seq<nat>)
    requires IsRanking(ranked, memories, shares, ask, q)
    ensures var window := Window(ranked, limit);
      var items := Packed(window, budget, 0);
      && IsMaximalPacking(window, budget, 0, items, picks)
      && (forall item :: item in items ==>
            && item.memoryId in memories
            && IsEligible(shares, memories[item.memoryId], q)
            && Justifies(shares, memories[item.memoryId], q, item.shareId)
            && item.content == memories[item.memoryId].content && item.tokens == Cost(memories[item.memoryId]))
      && (forall a, b :: 0 <= a < b < |items| ==> items[a].memoryId != items[b].memoryId)
  {
    hide Cost, Packed, IsRetrievable, IsActive, TokensOf;
    var window := Window(ranked, limit);
    var items := Packed(window, budget, 0);
    picks := PackedIsMaximal(window, budget, 0);
    forall k | 0 <= k < |items|
      ensures items[k] == ItemOf(ranked[picks[k]]) && ranked[picks[k]] in ranked
    {
    }
    forall item | item in items
      ensures item.memoryId in memories && IsEligible(shares, memories[item.memoryId], q)
      ensures Justifies(shares, memories[item.memoryId], q, item.shareId)
      ensures item.content == memories[item.memoryId].content && item.tokens == Cost(memories[item.memoryId])
    {
      var k :| 0 <= k < |items| && items[k] == item;
      assert IsCandidate(memories, shares, ask, q, ranked[picks[k]]);
    }
    forall a, b | 0 <= a < b < |items|
      ensures items[a].memoryId != items[b].memoryId
    {
      RankedOnce(ranked, picks[a], picks[b], memories, shares, ask, q);
    }
  }

  /** A memory has one score, so it is ranked once. */
  lemma RankedOnce(ranked: seq<Candidate>, i: nat, j: nat, memories: map<Uuid, Memory>, shares: map<Uuid, Share>,
                   ask: Ask, q: Request)
    requires IsRanking(ranked, memories, shares, ask, q) && i < j < |ranked|
    ensures ranked[i].memory.id != ranked[j].memory.id
  {
    hide IsRetrievable, Justifies;
    assert ranked[i] in ranked && ranked[j] in ranked && Before(ranked[i], ranked[j]);
    assert IsCandidate(memories, shares, ask, q, ranked[i]) && IsCandidate(memories, shares, ask, q, ranked[j]);
  }

  // ------------------------------------------------- the loops

  method ActiveShares(shares: map<Uuid, Share>, q: Request) returns (active: seq<Share>)
    requires forall s :: s in shares ==> shares[s].id == s
    ensures forall share :: share in active <==> share.id in shares && shares[share.id] == share && IsActive(share, q)
  {
    hide IsActive, InOrder, Ascending;
    var keys := InOrder(shares.Keys);
    active := [];
    for i := 0 to |keys|
      invariant forall share :: share in active <==>
                  (share.id in keys[..i] && shares[share.id] == share && IsActive(share, q))
    {
      assert keys[..i + 1] == keys[..i] + [keys[i]];
      if IsActive(shares[keys[i]], q) { active := active + [shares[keys[i]]]; }
    }
    assert keys[..|keys|] == keys;
  }

  /** The first active grant that covers a memory. */
  method FindShare(active: seq<Share>, m: Memory) returns (found: Option<Uuid>)
    ensures found.None? ==> forall share :: share in active ==> !Covers(share, m)
    ensures found.Some? ==> exists share :: share in active && Covers(share, m) && share.id == found.value
  {
    hide Covers;
    for i := 0 to |active|
      invariant forall k :: 0 <= k < i ==> !Covers(active[k], m)
    {
      if Covers(active[i], m) {
        assert active[i] in active;
        return Some(active[i].id);
      }
    }
    return None;
  }

  method CollectCandidates(memories: map<Uuid, Memory>, shares: map<Uuid, Share>, ask: Ask, q: Request)
    returns (candidates: seq<Candidate>)
    requires forall s :: s in shares ==> shares[s].id == s
    requires forall m :: m in memories ==> memories[m].id == m
    ensures forall c :: c in candidates ==> IsCandidate(memories, shares, ask, q, c)
    ensures forall id :: IsRelevant(memories, shares, ask, q, id) ==> Ranks(candidates, id)
    ensures forall i, j :: 0 <= i < j < |candidates| ==> candidates[i].memory.id < candidates[j].memory.id
  {
    hide IsCandidate, IsRelevant, InOrder, Ascending;
    var active := ActiveShares(shares, q);
    var keys := InOrder(memories.Keys);
    candidates := [];
    for i := 0 to |keys|
      invariant forall c :: c in candidates ==> IsCandidate(memories, shares, ask, q, c) && c.memory.id in keys[..i]
      invariant forall id :: id in keys[..i] && IsRelevant(memories, shares, ask, q, id) ==> Ranks(candidates, id)
      invariant forall a, b :: 0 <= a < b < |candidates| ==> candidates[a].memory.id < candidates[b].memory.id
    {
      NextIsLarger(keys, i);
      var candidate := Consider(memories, shares, active, ask, q, keys[i]);
      if candidate.None? { continue; }
      RanksMore(candidates, candidate.value);
      candidates := candidates + [candidate.value];
    }
    assert keys[..|keys|] == keys;
    RelevantIsStored(memories, shares, ask, q);
  }

  lemma RelevantIsStored(memories: map<Uuid, Memory>, shares: map<Uuid, Share>, ask: Ask, q: Request)
    ensures forall id :: IsRelevant(memories, shares, ask, q, id) ==> id in memories
  {
    hide IsEligible, ScoreOf;
  }

  /** What the loop over memories decides about one of them. */
  method Consider(memories: map<Uuid, Memory>, shares: map<Uuid, Share>, active: seq<Share>, ask: Ask,
                  q: Request, id: Uuid) returns (c: Option<Candidate>)
    requires id in memories && memories[id].id == id && forall s :: s in shares ==> shares[s].id == s
    requires forall share :: share in active <==> share.id in shares && shares[share.id] == share && IsActive(share, q)
    ensures c.Some? <==> IsRelevant(memories, shares, ask, q, id)
    ensures c.Some? ==> c.value.memory.id == id && IsCandidate(memories, shares, ask, q, c.value)
  {
    hide IsRetrievable, IsActive, Covers;
    var memory := memories[id];
    if memory.scope.organization != q.principal.organization || !IsRetrievable(memory, q.now) { return None; }
    var shareId: Option<Uuid> := None;
    if memory.scope.workspace != q.workspace {
      shareId := FindShare(active, memory);
      if shareId.None? {
        assert forall s :: s in shares && IsActive(shares[s], q) ==> shares[s] in active;
        return None;
      }
    }
    var score := ScoreMemory(ask, memory, q.workspace);
    if score == 0 { return None; }
    return Some(Candidate(score, memory, shareId));
  }

  lemma NextIsLarger(keys: seq<Uuid>, i: nat)
    requires Ascending(keys) && i < |keys|
    ensures forall k :: k in keys[..i + 1] <==> k in keys[..i] || k == keys[i]
    ensures forall k :: k in keys[..i] ==> k < keys[i]
  {
    assert keys[..i + 1] == keys[..i] + [keys[i]];
  }

  lemma RanksMore(candidates: seq<Candidate>, c: Candidate)
    ensures Ranks(candidates + [c], c.memory.id)
    ensures forall id :: Ranks(candidates, id) ==> Ranks(candidates + [c], id)
  {
    assert (candidates + [c])[|candidates|] == c;
    forall id | Ranks(candidates, id)
      ensures Ranks(candidates + [c], id)
    {
      var d :| d in candidates && d.memory.id == id;
      assert d in candidates + [c];
    }
  }

  /** Sorting by score, best first, then by id. */
  method SortByRank(candidates: seq<Candidate>) returns (ranked: seq<Candidate>)
    requires forall i, j :: 0 <= i < j < |candidates| ==> candidates[i].memory.id != candidates[j].memory.id
    ensures forall i, j :: 0 <= i < j < |ranked| ==> Before(ranked[i], ranked[j])
    ensures forall c :: c in ranked <==> c in candidates
  {
    ranked := SortBy(candidates, NotAfter);
    forall i, j | 0 <= i < j < |ranked|
      ensures Before(ranked[i], ranked[j])
    {
      assert NotAfter(ranked[i], ranked[j]) && ranked[i] != ranked[j];
      assert ranked[i] in ranked && ranked[j] in ranked;
    }
  }

  predicate NotAfter(a: Candidate, b: Candidate) {
    a.score > b.score || (a.score == b.score && a.memory.id <= b.memory.id)
  }

  method PackGreedily(window: seq<Candidate>, budget: nat) returns (items: seq<Item>, estimated: nat)
    ensures items == Packed(window, budget, 0) && estimated == TokensOf(items)
  {
    hide Cost;
    items, estimated := [], 0;
    for i := 0 to |window|
      invariant Packed(window, budget, 0) == items + Packed(window[i..], budget, estimated)
      invariant estimated == TokensOf(items)
    {
      assert window[i..][0] == window[i] && window[i..][1..] == window[i + 1..];
      var tokens := Cost(window[i].memory);
      if estimated + tokens > budget { continue; }
      TokensSnoc(items, ItemOf(window[i]));
      estimated := estimated + tokens;
      items := items + [ItemOf(window[i])];
    }
  }

  lemma {:induction false} TokensSnoc(items: seq<Item>, item: Item)
    ensures TokensOf(items + [item]) == TokensOf(items) + item.tokens
  {
    if items == [] {
      assert [item][1..] == [];
    } else {
      TokensSnoc(items[1..], item);
      assert (items + [item])[1..] == items[1..] + [item];
    }
  }
}
