/** The context package on the fields of memories and grants: who may see what, in which order, at what price. */
module PackageTheorems {
  import opened Basics
  import opened GovernanceTypes
  import opened QueryScore
  import opened ContextPackage
  import Extractor
  import Text

  // ------------------------------------------------- who may see what

  /** Published, in the caller's organization, and not expired at the time of the request. */
  predicate Readable(m: Memory, q: Request) {
    && m.scope.organization == q.principal.organization && m.lifecycle == Published
    && match m.expiresAt
       case None => true
       case Some(at) => q.now < at
  }

  /** The audience of the grant includes the caller. */
  predicate Includes(a: Audience, q: Request) {
    || a == Organization
    || a == Workspace(q.workspace)
    || (a == Agent(q.principal.id) && q.principal.kind == AgentSubject)
    || (a == User(q.principal.id) && q.principal.kind == UserSubject)
  }

  /** An approved and unexpired grant of exactly this memory, to an audience that includes the caller. */
  predicate Grants(share: Share, m: Memory, q: Request) {
    && share.state == Approved && share.memoryId == m.id && share.scope == m.scope && Includes(share.audience, q)
    && match share.expiresAt
       case None => true
       case Some(at) => q.now < at
  }

  lemma GrantsIsExposes(share: Share, m: Memory, q: Request)
    requires Readable(m, q)
    ensures Grants(share, m, q) <==> Exposes(share, m, q)
  {
  }

  /** A memory of another workspace is eligible exactly when some grant names it to the caller. */
  lemma EligibleIff(shares: map<Uuid, Share>, m: Memory, q: Request)
    ensures IsEligible(shares, m, q) <==>
              Readable(m, q) && (m.scope.workspace == q.workspace || exists s :: s in shares && Grants(shares[s], m, q))
  {
    hide Grants, Exposes;
    if Readable(m, q) {
      forall s | s in shares
        ensures Grants(shares[s], m, q) <==> Exposes(shares[s], m, q)
      {
        GrantsIsExposes(shares[s], m, q);
      }
    }
    assert Readable(m, q) <==> m.scope.organization == q.principal.organization && IsRetrievable(m, q.now);
  }

  // ------------------------------------------------- price and order

  /** A token for every four bytes begun, and at least one. */
  function TokenCount(content: string): nat {
    var bytes := |Text.EncodeAll(content)|;
    if bytes <= 4 then 1 else if bytes % 4 == 0 then bytes / 4 else bytes / 4 + 1
  }

  lemma CostIs(m: Memory)
    ensures Cost(m) == TokenCount(m.content)
  {
    hide Text.EncodeAll;
  }

  /** How many candidates the packer looks at. */
  function Considered(ranked: seq<Candidate>, limit: nat): (n: nat)
    ensures n <= |ranked|
  {
    var most := if limit == 0 then 1 else if limit <= 50 then limit else 50;
    if |ranked| < most then |ranked| else most
  }

  /** What the first `i` candidates have cost, each taken when it still fits. */
  function Spent(ranked: seq<Candidate>, budget: nat, i: nat): nat
    requires i <= |ranked|
  {
    if i == 0 then 0
    else
      var before := Spent(ranked, budget, i - 1);
      var tokens := TokenCount(ranked[i - 1].memory.content);
      if before + tokens <= budget then before + tokens else before
  }

  predicate Taken(ranked: seq<Candidate>, budget: nat, i: nat)
    requires i < |ranked|
  {
    Spent(ranked, budget, i) + TokenCount(ranked[i].memory.content) <= budget
  }

  /** The candidates among the first `n` that are taken, in rank order. */
  function TakenOf(ranked: seq<Candidate>, budget: nat, n: nat): seq<Item>
    requires n <= |ranked|
  {
    if n == 0 then []
    else TakenOf(ranked, budget, n - 1) + if Taken(ranked, budget, n - 1) then [EntryOf(ranked[n - 1])] else []
  }

  function EntryOf(c: Candidate): Item {
    var m := c.memory;
    Item(m.id, m.scope.workspace, m.content, c.score, TokenCount(m.content), m.version, c.shareId)
  }

  lemma {:induction false} PackedFrom(ranked: seq<Candidate>, limit: nat, budget: nat, i: nat)
    requires i <= Considered(ranked, limit)
    ensures Packed(Window(ranked, limit), budget, 0)
         == TakenOf(ranked, budget, i) + Packed(Window(ranked, limit)[i..], budget, Spent(ranked, budget, i))
  {
    hide Cost, TokenCount;
    var window := Window(ranked, limit);
    if i == 0 {
      assert window[0..] == window;
    } else {
      PackedFrom(ranked, limit, budget, i - 1);
      CostIs(ranked[i - 1].memory);
      assert window[i - 1..][0] == ranked[i - 1] && window[i - 1..][1..] == window[i..];
    }
  }

  /** The package is greedy: in rank order, each of the considered candidates is taken exactly when it still fits. */
  lemma PackedIsGreedy(ranked: seq<Candidate>, limit: nat, budget: nat)
    ensures Packed(Window(ranked, limit), budget, 0) == TakenOf(ranked, budget, Considered(ranked, limit))
  {
    hide Cost, TokenCount, TakenOf;
    var n := Considered(ranked, limit);
    PackedFrom(ranked, limit, budget, n);
    assert Window(ranked, limit)[n..] == [];
  }

  // ------------------------------------------------- the package

  /** What a caller gets, item by item. */
  ghost predicate ItemIsSound(memories: map<Uuid, Memory>, shares: map<Uuid, Share>, q: Request, item: Item) {
    && item.memoryId in memories
    && var m := memories[item.memoryId];
       && Readable(m, q) && m.id == item.memoryId
       && item.content == m.content && item.memoryVersion == m.version && item.sourceWorkspace == m.scope.workspace
       && item.tokens == TokenCount(m.content)
       && if m.scope.workspace == q.workspace then item.shareId == None
          else item.shareId.Some? && item.shareId.value in shares && Grants(shares[item.shareId.value], m, q)
  }

  /** The memory mentions a term of the query, or is local and its source is among the retrieved ones. */
  ghost predicate Concerns(ask: Ask, m: Memory, q: Request) {
    || (exists t :: t in ask.terms && Mentions(Extractor.UNICODE.toLowercase(m.content), t))
    || HasRankedSource(ask, m, q.workspace)
  }

  predicate RanksAt(ranked: seq<Candidate>, r: nat, id: Uuid) {
    r < |ranked| && ranked[r].memory.id == id
  }

  predicate HasItem(items: seq<Item>, id: Uuid) {
    exists item :: item in items && item.memoryId == id
  }

  /**
   * The whole promise, on fields. Every item is sound and the items stand in rank order, best score first.
   * Conversely every memory that the caller may read, by its workspace or by a grant, and that concerns the
   * query is ranked; and if it ranks among the considered ones it is an item, or did not fit any more.
   */
  ghost predicate IsPackage(memories: map<Uuid, Memory>, shares: map<Uuid, Share>, ask: Ask, q: Request,
                            ranked: seq<Candidate>, limit: nat, budget: nat, items: seq<Item>) {
    && items == TakenOf(ranked, budget, Considered(ranked, limit))
    && (forall item :: item in items ==> ItemIsSound(memories, shares, q, item))
    && (forall i, j :: 0 <= i < j < |ranked| ==> OutranksInOrder(ranked[i], ranked[j]))
    && (forall id :: MayRead(memories, shares, q, id) && Concerns(ask, memories[id], q) ==>
          exists r: nat :: RanksAt(ranked, r, id)
                           && (r < Considered(ranked, limit) ==> HasItem(items, id) || !Taken(ranked, budget, r)))
  }

  predicate OutranksInOrder(a: Candidate, b: Candidate) {
    a.score > b.score || (a.score == b.score && a.memory.id < b.memory.id)
  }

  ghost predicate MayRead(memories: map<Uuid, Memory>, shares: map<Uuid, Share>, q: Request, id: Uuid) {
    && id in memories && Readable(memories[id], q)
    && (memories[id].scope.workspace == q.workspace || exists s :: s in shares && Grants(shares[s], memories[id], q))
  }

  lemma PackageIsExact(memories: map<Uuid, Memory>, shares: map<Uuid, Share>, ask: Ask, sources: seq<Option<string>>,
                       q: Request, ranked: seq<Candidate>, limit: nat, budget: nat)
    requires ContextPackage.IsRanking(ranked, memories, shares, ask, q)
    requires NoneEmpty(ask.terms) && IsRankTable(sources, ask.ranks) && |sources| <= 50
    ensures IsPackage(memories, shares, ask, q, ranked, limit, budget, Packed(Window(ranked, limit), budget, 0))
  {
    hide Cost, Packed, Window, TokenCount, Readable, Grants, Concerns, IsEligible, Score, Spent, Considered;
    var items := Packed(Window(ranked, limit), budget, 0);
    PackedIsGreedy(ranked, limit, budget);
    TakenAreSound(memories, shares, ask, q, ranked, budget, Considered(ranked, limit));
    forall id | MayRead(memories, shares, q, id) && Concerns(ask, memories[id], q)
      ensures exists r: nat :: RanksAt(ranked, r, id)
                               && (r < Considered(ranked, limit) ==> HasItem(items, id) || !Taken(ranked, budget, r))
    {
      EligibleIff(shares, memories[id], q);
      ConcernedScores(ask, sources, memories[id], q);
      assert IsRelevant(memories, shares, ask, q, id);
      var c :| c in ranked && c.memory.id == id;
      var r :| 0 <= r < |ranked| && ranked[r] == c;
      assert RanksAt(ranked, r, id);
      if r < Considered(ranked, limit) && Taken(ranked, budget, r) {
        TakenIsItem(ranked, budget, Considered(ranked, limit), r);
      }
    }
  }

  lemma ConcernedScores(ask: Ask, sources: seq<Option<string>>, m: Memory, q: Request)
    requires NoneEmpty(ask.terms) && IsRankTable(sources, ask.ranks) && |sources| <= 50
    ensures ScoreOf(ask, m, q) > 0 <==> Concerns(ask, m, q)
  {
    hide Mentions, Score;
    ScoredIffRelevant(ask, sources, m, q.workspace);
  }

  lemma {:induction false} TakenIsItem(ranked: seq<Candidate>, budget: nat, n: nat, r: nat)
    requires r < n <= |ranked| && Taken(ranked, budget, r)
    ensures HasItem(TakenOf(ranked, budget, n), ranked[r].memory.id)
  {
    hide TokenCount, Spent, Taken;
    var all := TakenOf(ranked, budget, n);
    if r == n - 1 {
      assert all[|all| - 1] == EntryOf(ranked[r]);
    } else {
      TakenIsItem(ranked, budget, n - 1, r);
      var item :| item in TakenOf(ranked, budget, n - 1) && item.memoryId == ranked[r].memory.id;
      assert item in all;
    }
  }

  lemma {:induction false} TakenAreSound(memories: map<Uuid, Memory>, shares: map<Uuid, Share>, ask: Ask, q: Request,
                                         ranked: seq<Candidate>, budget: nat, n: nat)
    requires ContextPackage.IsRanking(ranked, memories, shares, ask, q) && n <= |ranked|
    ensures forall item :: item in TakenOf(ranked, budget, n) ==> ItemIsSound(memories, shares, q, item)
  {
    hide ContextPackage.IsRanking, Taken, ItemIsSound, TokenCount;
    if n > 0 {
      TakenAreSound(memories, shares, ask, q, ranked, budget, n - 1);
      EntryIsSound(memories, shares, ask, q, ranked, n - 1);
    }
  }

  lemma EntryIsSound(memories: map<Uuid, Memory>, shares: map<Uuid, Share>, ask: Ask, q: Request,
                     ranked: seq<Candidate>, r: nat)
    requires ContextPackage.IsRanking(ranked, memories, shares, ask, q) && r < |ranked|
    ensures ItemIsSound(memories, shares, q, EntryOf(ranked[r]))
  {
    hide TokenCount, Score, IsRelevant, Grants, Exposes;
    var c := ranked[r];
    assert c in ranked && IsCandidate(memories, shares, ask, q, c);
    assert Readable(c.memory, q);
    if c.memory.scope.workspace != q.workspace { GrantsIsExposes(shares[c.shareId.value], c.memory, q); }
  }
}
