/** `graph_candidates`: a hop-capped, edge-budgeted breadth-first search over undirected edges. */
module GraphTraversal {
  import opened Basics
  import opened GraphTypes

  datatype Candidate = Candidate(edgeId: EdgeId, chunkId: Uuid, score: real, hops: nat)

  predicate Touches(e: Edge, v: EntityId) {
    e.source == v || e.target == v
  }

  function Other(e: Edge, v: EntityId): EntityId {
    if e.source == v then e.target else e.source
  }

  /** The entities reachable from a seed over at most `n` edges: the reference distance. */
  ghost function Within(edges: seq<Edge>, seeds: set<EntityId>, n: nat): set<EntityId> {
    if n == 0 then seeds
    else
      var near := Within(edges, seeds, n - 1);
      near + set e, v | e in edges && v in near && Touches(e, v) :: Other(e, v)
  }

  ghost predicate AtDistance(edges: seq<Edge>, seeds: set<EntityId>, v: EntityId, n: nat) {
    v in Within(edges, seeds, n) && (n > 0 ==> v !in Within(edges, seeds, n - 1))
  }

  /** `chunk` is evidence for `e`. */
  predicate Shows(evidence: map<EdgeId, seq<Uuid>>, e: Edge, chunk: Uuid) {
    e.id in evidence && chunk in evidence[e.id]
  }

  /** Some endpoint of an edge evidenced by `chunk` lies within `n` hops of a seed. */
  ghost predicate EvidencedWithin(edges: seq<Edge>, evidence: map<EdgeId, seq<Uuid>>,
                                  seeds: set<EntityId>, chunk: Uuid, n: nat) {
    exists e, v :: e in edges && Shows(evidence, e, chunk) && Touches(e, v) && v in Within(edges, seeds, n)
  }

  /** `hops` is one more than the least distance from a seed to an edge `chunk` evidences. */
  ghost predicate ExactHops(edges: seq<Edge>, evidence: map<EdgeId, seq<Uuid>>, seeds: set<EntityId>,
                            chunk: Uuid, hops: nat) {
    && hops >= 1
    && EvidencedWithin(edges, evidence, seeds, chunk, hops - 1)
    && (hops >= 2 ==> !EvidencedWithin(edges, evidence, seeds, chunk, hops - 2))
  }

  // ------------------------------------------------- facts about distance

  lemma {:induction false} WithinGrows(edges: seq<Edge>, seeds: set<EntityId>, m: nat, n: nat)
    requires m <= n
    ensures Within(edges, seeds, m) <= Within(edges, seeds, n)
    decreases n
  {
    if m < n {
      WithinGrows(edges, seeds, m, n - 1);
    }
  }

  lemma DistanceUnique(edges: seq<Edge>, seeds: set<EntityId>, v: EntityId, m: nat, n: nat)
    requires AtDistance(edges, seeds, v, m) && v in Within(edges, seeds, n)
    ensures m <= n
  {
    if n < m {
      WithinGrows(edges, seeds, n, m - 1);
    }
  }

  lemma StepAway(edges: seq<Edge>, seeds: set<EntityId>, e: Edge, v: EntityId, n: nat)
    requires e in edges && Touches(e, v) && v in Within(edges, seeds, n)
    ensures Other(e, v) in Within(edges, seeds, n + 1)
  {
  }

  lemma StepBack(edges: seq<Edge>, seeds: set<EntityId>, v: EntityId, n: nat) returns (u: EntityId)
    requires n > 0 && v in Within(edges, seeds, n) && v !in Within(edges, seeds, n - 1)
    ensures u in Within(edges, seeds, n - 1) && Adjacent(edges, u, v)
  {
    var e, w :| e in edges && w in Within(edges, seeds, n - 1) && Touches(e, w) && Other(e, w) == v;
    u := w;
  }

  /** A path of `n` edges starting at a seed, as the entities it visits. */
  ghost predicate IsPath(edges: seq<Edge>, seeds: set<EntityId>, path: seq<EntityId>) {
    && path != [] && path[0] in seeds
    && forall i :: 0 < i < |path| ==> Adjacent(edges, path[i - 1], path[i])
  }

  ghost predicate Adjacent(edges: seq<Edge>, u: EntityId, v: EntityId) {
    exists e :: e in edges && Touches(e, u) && Other(e, u) == v
  }

  /** `Within` is reachability by paths of bounded length. */
  lemma {:induction false} WithinIsReachable(edges: seq<Edge>, seeds: set<EntityId>, v: EntityId, n: nat)
    ensures v in Within(edges, seeds, n) <==>
            exists path :: IsPath(edges, seeds, path) && |path| <= n + 1 && path[|path| - 1] == v
  {
    if v in Within(edges, seeds, n) {
      var path := PathTo(edges, seeds, v, n);
    }
    if path :| IsPath(edges, seeds, path) && |path| <= n + 1 && path[|path| - 1] == v {
      EndWithin(edges, seeds, path);
      WithinGrows(edges, seeds, |path| - 1, n);
    }
  }

  lemma SeedPath(edges: seq<Edge>, seeds: set<EntityId>, v: EntityId)
    requires v in Within(edges, seeds, 0)
    ensures IsPath(edges, seeds, [v])
  {
  }

  lemma ExtendPath(edges: seq<Edge>, seeds: set<EntityId>, prefix: seq<EntityId>, v: EntityId)
    requires IsPath(edges, seeds, prefix) && Adjacent(edges, prefix[|prefix| - 1], v)
    ensures IsPath(edges, seeds, prefix + [v])
  {
    hide Adjacent;
    var path := prefix + [v];
    forall i | 0 < i < |path|
      ensures Adjacent(edges, path[i - 1], path[i])
    {
      if i < |prefix| { assert path[i] == prefix[i]; }
    }
  }

  lemma {:induction false} PathTo(edges: seq<Edge>, seeds: set<EntityId>, v: EntityId, n: nat)
    returns (path: seq<EntityId>)
    requires v in Within(edges, seeds, n)
    ensures IsPath(edges, seeds, path) && |path| <= n + 1 && path[|path| - 1] == v
    decreases n
  {
    hide IsPath, Adjacent, Within;
    if n == 0 {
      path := [v];
      SeedPath(edges, seeds, v);
    } else if v in Within(edges, seeds, n - 1) {
      path := PathTo(edges, seeds, v, n - 1);
    } else {
      var u := StepBack(edges, seeds, v, n);
      var prefix := PathTo(edges, seeds, u, n - 1);
      ExtendPath(edges, seeds, prefix, v);
      path := prefix + [v];
    }
  }

  lemma {:induction false} EndWithin(edges: seq<Edge>, seeds: set<EntityId>, path: seq<EntityId>)
    requires IsPath(edges, seeds, path)
    ensures path[|path| - 1] in Within(edges, seeds, |path| - 1)
    decreases |path|
  {
    if |path| > 1 {
      var n := |path| - 1;
      var prefix := path[..n];
      EndWithin(edges, seeds, prefix);
      assert Adjacent(edges, path[n - 1], path[n]);
      var e :| e in edges && Touches(e, path[n - 1]) && Other(e, path[n - 1]) == path[n];
      StepAway(edges, seeds, e, path[n - 1], n - 1);
    }
  }

  // ------------------------------------------------------ search invariant

  /** What one search works on. */
  datatype Problem = Problem(edges: seq<Edge>, evidence: map<EdgeId, seq<Uuid>>, seeds: set<EntityId>,
                             maxHops: nat, confidence: real)
  {
    ghost predicate Valid() {
      maxHops >= 1 && confidence > 0.0 && forall e :: e in edges ==> e.confidence == confidence
    }

    ghost function Universe(): set<EntityId> {
      seeds + (set e | e in edges :: e.source) + (set e | e in edges :: e.target)
    }
  }

  datatype Visit = Visit(id: EntityId, hops: nat)

  /** The local variables of the loop; `entered` records every push on the frontier. */
  datatype Search = Search(visited: map<EntityId, nat>, frontier: seq<Visit>,
                           candidates: map<Uuid, Candidate>, entered: seq<EntityId>)

  /** Every visited entity carries its true distance. */
  ghost predicate Exact(p: Problem, visited: map<EntityId, nat>) {
    && p.seeds <= visited.Keys <= p.Universe()
    && forall v :: v in visited ==> AtDistance(p.edges, p.seeds, v, visited[v])
  }

  ghost predicate Queued(frontier: seq<Visit>, v: EntityId) {
    exists i :: 0 <= i < |frontier| && frontier[i].id == v
  }

  /** The FIFO holds visited entities once each, in distance order, on levels `level` and `level + 1`. */
  ghost predicate IsQueue(visited: map<EntityId, nat>, frontier: seq<Visit>, level: nat) {
    && (forall i :: 0 <= i < |frontier| ==>
          frontier[i].id in visited && visited[frontier[i].id] == frontier[i].hops)
    && (forall i :: 0 <= i < |frontier| ==> level <= frontier[i].hops <= level + 1)
    && (forall i, j :: 0 <= i < j < |frontier| ==> frontier[i].hops <= frontier[j].hops)
    && (forall i, j :: 0 <= i < j < |frontier| ==> frontier[i].id != frontier[j].id)
  }

  /** All neighbours of the entities in `done` have been visited. */
  ghost predicate Expanded(edges: seq<Edge>, visited: map<EntityId, nat>, done: set<EntityId>) {
    && done <= visited.Keys
    && forall v, e :: v in done && e in edges && Touches(e, v) ==> Other(e, v) in visited
  }

  /** Nothing below the hop cap is left behind. */
  ghost predicate NoneSkipped(visited: map<EntityId, nat>, frontier: seq<Visit>, done: set<EntityId>, maxHops: nat) {
    forall v :: v in visited ==> v in done || Queued(frontier, v) || visited[v] >= maxHops
  }

  /** `chunk` is recorded with at most `hops` hops. */
  predicate RecordedBy(candidates: map<Uuid, Candidate>, chunk: Uuid, hops: nat) {
    chunk in candidates && candidates[chunk].hops <= hops
  }

  ghost predicate RecordsEdge(p: Problem, candidates: map<Uuid, Candidate>, e: Edge, hops: nat) {
    forall chunk :: Shows(p.evidence, e, chunk) ==> RecordedBy(candidates, chunk, hops)
  }

  ghost predicate Recorded(p: Problem, visited: map<EntityId, nat>, candidates: map<Uuid, Candidate>,
                           done: set<EntityId>)
    requires done <= visited.Keys
  {
    forall v, e :: v in done && e in p.edges && Touches(e, v) ==> RecordsEdge(p, candidates, e, visited[v] + 1)
  }

  /** Each candidate names an edge it evidences and carries the exact hop count of its chunk. */
  ghost predicate Sound(p: Problem, candidates: map<Uuid, Candidate>) {
    forall chunk :: chunk in candidates ==>
      var c := candidates[chunk];
      && c.chunkId == chunk
      && 1 <= c.hops <= p.maxHops
      && c.score == p.confidence / c.hops as real
      && (exists e :: e in p.edges && e.id == c.edgeId && Shows(p.evidence, e, chunk))
      && ExactHops(p.edges, p.evidence, p.seeds, chunk, c.hops)
  }

  /** Every visited entity entered the frontier exactly once. */
  ghost predicate EnteredOnce(visited: map<EntityId, nat>, entered: seq<EntityId>) {
    && (forall v :: v in entered <==> v in visited)
    && (forall i, j :: 0 <= i < j < |entered| ==> entered[i] != entered[j])
  }

  /** Everything the search keeps true, whether or not its budget has run out. */
  ghost predicate Consistent(p: Problem, s: Search, done: set<EntityId>, level: nat) {
    && p.Valid()
    && Exact(p, s.visited)
    && IsQueue(s.visited, s.frontier, level)
    && Expanded(p.edges, s.visited, done)
    && Recorded(p, s.visited, s.candidates, done)
    && Sound(p, s.candidates)
    && EnteredOnce(s.visited, s.entered)
  }

  /** A neighbour of an expanded entity has been visited. */
  lemma NeighbourVisited(p: Problem, visited: map<EntityId, nat>, done: set<EntityId>, d: nat, n: nat, v: EntityId)
    requires Exact(p, visited) && Expanded(p.edges, visited, done)
    requires forall u :: u in visited && visited[u] < d ==> u in done
    requires 0 < n <= d && Within(p.edges, p.seeds, n - 1) <= visited.Keys
    requires v in Within(p.edges, p.seeds, n) && v !in Within(p.edges, p.seeds, n - 1)
    ensures v in visited
  {
    hide Within, Touches, Other;
    var u := StepBack(p.edges, p.seeds, v, n);
    assert u in visited.Keys && AtDistance(p.edges, p.seeds, u, visited[u]);
    DistanceUnique(p.edges, p.seeds, u, visited[u], n - 1);
    var e :| e in p.edges && Touches(e, u) && Other(e, u) == v;
  }

  /** If everything nearer than `d` is expanded, everything within `d` has been visited. */
  lemma {:induction false} LevelVisited(p: Problem, visited: map<EntityId, nat>, done: set<EntityId>, d: nat, n: nat)
    requires Exact(p, visited) && Expanded(p.edges, visited, done)
    requires forall v :: v in visited && visited[v] < d ==> v in done
    requires n <= d
    ensures Within(p.edges, p.seeds, n) <= visited.Keys
  {
    hide Expanded, AtDistance, Touches, Other;
    if n > 0 {
      LevelVisited(p, visited, done, d, n - 1);
      forall v | v in Within(p.edges, p.seeds, n) && v !in Within(p.edges, p.seeds, n - 1)
        ensures v in visited
      {
        NeighbourVisited(p, visited, done, d, n, v);
      }
    }
  }

  // ------------------------------------------------------------ search steps

  function InitialSearch(p: Problem, seedList: seq<EntityId>): Search {
    Search(map v | v in p.seeds :: 0,
           seq(|seedList|, i requires 0 <= i < |seedList| => Visit(seedList[i], 0)), map[], seedList)
  }

  lemma SearchStarts(p: Problem, seedList: seq<EntityId>)
    requires p.Valid() && forall v :: v in p.seeds <==> v in seedList
    requires forall i, j :: 0 <= i < j < |seedList| ==> seedList[i] != seedList[j]
    ensures Consistent(p, InitialSearch(p, seedList), {}, 0)
    ensures NoneSkipped(InitialSearch(p, seedList).visited, InitialSearch(p, seedList).frontier, {}, p.maxHops)
  {
    var s := InitialSearch(p, seedList);
    forall v | v in seedList
      ensures Queued(s.frontier, v)
    {
      var i :| 0 <= i < |seedList| && seedList[i] == v;
      assert s.frontier[i].id == v;
    }
  }

  lemma Popped(s: Search, done: set<EntityId>, level: nat, maxHops: nat)
    requires IsQueue(s.visited, s.frontier, level) && s.frontier != []
    ensures var s', head := s.(frontier := s.frontier[1..]), s.frontier[0];
      && head.id in s.visited && s.visited[head.id] == head.hops
      && IsQueue(s'.visited, s'.frontier, level) && IsQueue(s'.visited, s'.frontier, head.hops)
      && (NoneSkipped(s.visited, s.frontier, done, maxHops) ==>
            if head.hops >= maxHops then NoneSkipped(s'.visited, s'.frontier, done, maxHops)
            else
              && NoneSkipped(s'.visited, s'.frontier, done + {head.id}, maxHops)
              && (forall v :: v in s.visited && s.visited[v] < head.hops ==> v in done))
  {
    var tail := s.frontier[1..];
    forall v | Queued(s.frontier, v)
      ensures v == s.frontier[0].id || Queued(tail, v)
      ensures v in s.visited && s.visited[v] >= s.frontier[0].hops
    {
      var i :| 0 <= i < |s.frontier| && s.frontier[i].id == v;
      if i > 0 { assert tail[i - 1].id == v; }
    }
  }

  /** The state inside the edge loop of entity `u`, which lies at distance `d` below the cap. */
  ghost predicate Expanding(p: Problem, s: Search, done: set<EntityId>, u: EntityId, d: nat) {
    && u in s.visited && s.visited[u] == d && d < p.maxHops
    && (forall v :: v in s.visited && s.visited[v] < d ==> v in done)
    && Within(p.edges, p.seeds, d) <= s.visited.Keys
    && Consistent(p, s, done, d)
    && NoneSkipped(s.visited, s.frontier, done + {u}, p.maxHops)
  }

  /** The first `k` edges have been followed from `u`. */
  ghost predicate Followed(p: Problem, s: Search, u: EntityId, d: nat, k: nat)
    requires k <= |p.edges|
  {
    forall i :: 0 <= i < k && Touches(p.edges[i], u) ==>
      Other(p.edges[i], u) in s.visited && RecordsEdge(p, s.candidates, p.edges[i], d + 1)
  }

  function VisitNext(s: Search, v: EntityId, hops: nat): Search {
    s.(visited := s.visited[v := hops], frontier := s.frontier + [Visit(v, hops)], entered := s.entered + [v])
  }

  lemma VisitedExactly(p: Problem, s: Search, e: Edge, u: EntityId, d: nat)
    requires Exact(p, s.visited) && Within(p.edges, p.seeds, d) <= s.visited.Keys
    requires u in s.visited && s.visited[u] == d && e in p.edges && Touches(e, u)
    requires Other(e, u) !in s.visited
    ensures Exact(p, s.visited[Other(e, u) := d + 1])
  {
    hide Within;
    StepAway(p.edges, p.seeds, e, u, d);
    assert Other(e, u) in p.Universe();
  }

  lemma QueuedNext(s: Search, done: set<EntityId>, d: nat, next: EntityId, maxHops: nat)
    requires IsQueue(s.visited, s.frontier, d) && EnteredOnce(s.visited, s.entered)
    requires NoneSkipped(s.visited, s.frontier, done, maxHops) && next !in s.visited
    ensures var s' := VisitNext(s, next, d + 1);
      && IsQueue(s'.visited, s'.frontier, d) && EnteredOnce(s'.visited, s'.entered)
      && NoneSkipped(s'.visited, s'.frontier, done, maxHops)
  {
    var s' := VisitNext(s, next, d + 1);
    assert s'.frontier[|s.frontier|].id == next;
    forall v | Queued(s.frontier, v)
      ensures Queued(s'.frontier, v)
    {
      var i :| 0 <= i < |s.frontier| && s.frontier[i].id == v;
      assert s'.frontier[i].id == v;
    }
  }

  /** Visiting a neighbour of `u` for the first time keeps distances exact and the queue ordered. */
  lemma VisitStep(p: Problem, s: Search, done: set<EntityId>, u: EntityId, d: nat, k: nat)
    requires Expanding(p, s, done, u, d) && k < |p.edges| && Followed(p, s, u, d, k)
    requires Touches(p.edges[k], u) && Other(p.edges[k], u) !in s.visited
    ensures var s' := VisitNext(s, Other(p.edges[k], u), d + 1);
      && Expanding(p, s', done, u, d) && Followed(p, s', u, d, k)
      && Unvisited(p, s') + |s'.frontier| == Unvisited(p, s) + |s.frontier|
  {
    hide Within, RecordsEdge, NoneSkipped, IsQueue, EnteredOnce, Sound, Exact, Expanded, Recorded;
    var next := Other(p.edges[k], u);
    assert p.edges[k] in p.edges;
    VisitedExactly(p, s, p.edges[k], u, d);
    QueuedNext(s, done + {u}, d, next, p.maxHops);
    DoneStaysDone(p, s, done, next, d + 1);
    NextInUniverse(p, s, p.edges[k], u);
    assert p.Universe() - s.visited[next := d + 1].Keys == (p.Universe() - s.visited.Keys) - {next};
  }

  lemma NextInUniverse(p: Problem, s: Search, e: Edge, u: EntityId)
    requires e in p.edges && Touches(e, u)
    ensures Other(e, u) in p.Universe()
  {
  }

  /** A first visit disturbs nothing that was expanded before. */
  lemma DoneStaysDone(p: Problem, s: Search, done: set<EntityId>, next: EntityId, hops: nat)
    requires Expanded(p.edges, s.visited, done) && Recorded(p, s.visited, s.candidates, done) && next !in s.visited
    ensures Expanded(p.edges, s.visited[next := hops], done)
    ensures Recorded(p, s.visited[next := hops], s.candidates, done)
  {
    hide RecordsEdge, Touches, Other;
  }

  ghost function Unvisited(p: Problem, s: Search): nat {
    |p.Universe() - s.visited.Keys|
  }

  /** A neighbour that was visited before never needs a shorter distance. */
  lemma NeverShortened(p: Problem, visited: map<EntityId, nat>, e: Edge, u: EntityId)
    requires Exact(p, visited)
    requires u in visited && e in p.edges && Touches(e, u) && Other(e, u) in visited
    ensures visited[Other(e, u)] <= visited[u] + 1
  {
    hide Within;
    StepAway(p.edges, p.seeds, e, u, visited[u]);
    DistanceUnique(p.edges, p.seeds, Other(e, u), visited[Other(e, u)], visited[u] + 1);
  }

  lemma ScoreOrder(confidence: real, a: nat, b: nat)
    requires confidence > 0.0 && a >= 1 && b >= 1
    ensures confidence / a as real > confidence / b as real <==> a < b
  {
    var x, y := confidence / a as real, confidence / b as real;
    assert x * a as real == confidence && y * b as real == confidence;
    if a < b {
      MulStrict(y, a as real, b as real);
      if x <= y { MulWeak(a as real, x, y); }
    } else if x > y {
      MulStrict(a as real, y, x);
      MulWeak(y, b as real, a as real);
    }
  }

  lemma MulStrict(k: real, a: real, b: real)
    requires k > 0.0 && a < b
    ensures k * a < k * b && a * k < b * k
  {
  }

  lemma MulWeak(k: real, a: real, b: real)
    requires k >= 0.0 && a <= b
    ensures k * a <= k * b && a * k <= b * k
  {
  }

  predicate Better(candidates: map<Uuid, Candidate>, c: Candidate) {
    c.chunkId !in candidates || c.score > candidates[c.chunkId].score
  }

  /** Chunks nearer than the level being expanded have already been recorded. */
  lemma NearChunkRecorded(p: Problem, s: Search, done: set<EntityId>, u: EntityId, d: nat, chunk: Uuid)
    requires Expanding(p, s, done, u, d) && d >= 1
    requires EvidencedWithin(p.edges, p.evidence, p.seeds, chunk, d - 1)
    ensures RecordedBy(s.candidates, chunk, d)
  {
    hide Within;
    var e, w :| e in p.edges && Shows(p.evidence, e, chunk) && Touches(e, w) && w in Within(p.edges, p.seeds, d - 1);
    WithinGrows(p.edges, p.seeds, d - 1, d);
    DistanceUnique(p.edges, p.seeds, w, s.visited[w], d - 1);
    assert RecordsEdge(p, s.candidates, e, s.visited[w] + 1);
    assert RecordedBy(s.candidates, chunk, s.visited[w] + 1);
  }

  /** A candidate that replaces the recorded one carries the exact hop count of its chunk. */
  lemma OfferKeepsSound(p: Problem, s: Search, done: set<EntityId>, e: Edge, u: EntityId, d: nat, c: Candidate)
    requires Expanding(p, s, done, u, d) && e in p.edges && Touches(e, u)
    requires c.edgeId == e.id && Shows(p.evidence, e, c.chunkId)
    requires c.hops == d + 1 && c.score == p.confidence / c.hops as real
    requires Better(s.candidates, c)
    ensures Sound(p, s.candidates[c.chunkId := c])
    ensures c.chunkId in s.candidates ==> c.hops < s.candidates[c.chunkId].hops
  {
    hide Within, IsQueue, NoneSkipped, EnteredOnce, Recorded, Expanded;
    var chunk := c.chunkId;
    assert u in Within(p.edges, p.seeds, d);
    if chunk in s.candidates { ScoreOrder(p.confidence, c.hops, s.candidates[chunk].hops); }
    assert EvidencedWithin(p.edges, p.evidence, p.seeds, chunk, d);
    if d >= 1 && EvidencedWithin(p.edges, p.evidence, p.seeds, chunk, d - 1) {
      NearChunkRecorded(p, s, done, u, d, chunk);
      assert false;
    }
  }

  /** The `replace` rule: a chunk keeps the first candidate unless a better one arrives. */
  function Offer(candidates: map<Uuid, Candidate>, c: Candidate): map<Uuid, Candidate> {
    if Better(candidates, c) then candidates[c.chunkId := c] else candidates
  }

  lemma OfferKeeps(p: Problem, s: Search, done: set<EntityId>, e: Edge, u: EntityId, d: nat, c: Candidate)
    requires Expanding(p, s, done, u, d) && e in p.edges && Touches(e, u)
    requires c.edgeId == e.id && Shows(p.evidence, e, c.chunkId)
    requires c.hops == d + 1 && c.score == p.confidence / c.hops as real
    ensures Expanding(p, s.(candidates := Offer(s.candidates, c)), done, u, d)
    ensures RecordedBy(Offer(s.candidates, c), c.chunkId, d + 1)
    ensures forall chunk, h :: RecordedBy(s.candidates, chunk, h) ==> RecordedBy(Offer(s.candidates, c), chunk, h)
  {
    hide Within, NoneSkipped, Exact, IsQueue, EnteredOnce, RecordsEdge;
    if Better(s.candidates, c) {
      OfferKeepsSound(p, s, done, e, u, d, c);
      RecordsMore(p, s.candidates, Offer(s.candidates, c));
    } else {
      ScoreOrder(p.confidence, d + 1, s.candidates[c.chunkId].hops);
    }
  }

  lemma RecordsMore(p: Problem, candidates: map<Uuid, Candidate>, candidates': map<Uuid, Candidate>)
    requires forall chunk, h :: RecordedBy(candidates, chunk, h) ==> RecordedBy(candidates', chunk, h)
    ensures forall e, h :: RecordsEdge(p, candidates, e, h) ==> RecordsEdge(p, candidates', e, h)
  {
    hide RecordedBy;
  }

  /** With the queue empty and the budget unspent, every near chunk has been recorded. */
  lemma NearChunkFound(p: Problem, s: Search, done: set<EntityId>, level: nat, chunk: Uuid)
    requires Consistent(p, s, done, level) && NoneSkipped(s.visited, s.frontier, done, p.maxHops) && s.frontier == []
    requires EvidencedWithin(p.edges, p.evidence, p.seeds, chunk, p.maxHops - 1)
    ensures chunk in s.candidates
  {
    hide Within, IsQueue, EnteredOnce, Sound;
    LevelVisited(p, s.visited, done, p.maxHops, p.maxHops - 1);
    var e, v :| e in p.edges && Shows(p.evidence, e, chunk) && Touches(e, v)
                && v in Within(p.edges, p.seeds, p.maxHops - 1);
    DistanceUnique(p.edges, p.seeds, v, s.visited[v], p.maxHops - 1);
    assert RecordsEdge(p, s.candidates, e, s.visited[v] + 1);
    assert RecordedBy(s.candidates, chunk, s.visited[v] + 1);
  }

  /** With the queue empty and the budget unspent, the candidates are exactly the near chunks. */
  lemma SearchComplete(p: Problem, s: Search, done: set<EntityId>, level: nat)
    requires Consistent(p, s, done, level) && NoneSkipped(s.visited, s.frontier, done, p.maxHops) && s.frontier == []
    ensures forall chunk :: chunk in s.candidates <==>
              EvidencedWithin(p.edges, p.evidence, p.seeds, chunk, p.maxHops - 1)
  {
    hide Within, IsQueue, EnteredOnce, NoneSkipped, Recorded, Exact, Expanded, EvidencedWithin;
    forall chunk
      ensures chunk in s.candidates <==> EvidencedWithin(p.edges, p.evidence, p.seeds, chunk, p.maxHops - 1)
    {
      if EvidencedWithin(p.edges, p.evidence, p.seeds, chunk, p.maxHops - 1) {
        NearChunkFound(p, s, done, level, chunk);
      }
      if chunk in s.candidates {
        assert ExactHops(p.edges, p.evidence, p.seeds, chunk, s.candidates[chunk].hops);
        WithinGrowsEvidence(p, chunk, s.candidates[chunk].hops - 1, p.maxHops - 1);
      }
    }
  }

  lemma WithinGrowsEvidence(p: Problem, chunk: Uuid, m: nat, n: nat)
    requires m <= n && EvidencedWithin(p.edges, p.evidence, p.seeds, chunk, m)
    ensures EvidencedWithin(p.edges, p.evidence, p.seeds, chunk, n)
  {
    WithinGrows(p.edges, p.seeds, m, n);
  }

  lemma OfferStep(p: Problem, s: Search, s': Search, done: set<EntityId>, u: EntityId, d: nat, k: nat)
    requires Expanding(p, s, done, u, d) && k < |p.edges| && Followed(p, s, u, d, k)
    requires s' == s.(candidates := s'.candidates)
    requires Recorded(p, s'.visited, s'.candidates, done) && Sound(p, s'.candidates)
    requires Touches(p.edges[k], u) ==>
               Other(p.edges[k], u) in s.visited && RecordsEdge(p, s'.candidates, p.edges[k], d + 1)
    requires forall e, h :: RecordsEdge(p, s.candidates, e, h) ==> RecordsEdge(p, s'.candidates, e, h)
    ensures Expanding(p, s', done, u, d)
    ensures Followed(p, s', u, d, k + 1)
  {
    hide Within, RecordsEdge, Recorded, Exact, Sound, Expanded;
  }

  lemma EntityFinished(p: Problem, s: Search, done: set<EntityId>, u: EntityId, d: nat)
    requires Expanding(p, s, done, u, d) && Followed(p, s, u, d, |p.edges|)
    ensures Consistent(p, s, done + {u}, d)
  {
    hide Within, RecordsEdge, NoneSkipped, IsQueue, EnteredOnce, Sound, Exact;
  }

  // -------------------------------------------------------------- the search

  /**
   * The frontier loop of `graph_candidates`, from its seeds to its candidate map, with the number
   * of edges it followed.
   */
  method Traverse(p: Problem, seedList: seq<EntityId>, budget: nat) returns (s: Search, traversed: nat)
    requires p.Valid()
    requires forall v :: v in p.seeds <==> v in seedList
    requires forall i, j :: 0 <= i < j < |seedList| ==> seedList[i] != seedList[j]
    ensures traversed <= budget
    ensures Exact(p, s.visited) && Sound(p, s.candidates) && EnteredOnce(s.visited, s.entered)
    ensures traversed < budget ==>
              forall chunk :: chunk in s.candidates <==>
                EvidencedWithin(p.edges, p.evidence, p.seeds, chunk, p.maxHops - 1)
  {
    hide Within, Exact, Sound, NoneSkipped, Recorded, Expanded, IsQueue, EnteredOnce, InitialSearch;
    s := InitialSearch(p, seedList);
    traversed := 0;
    ghost var done: set<EntityId> := {};
    ghost var level: nat := 0;
    SearchStarts(p, seedList);
    while s.frontier != []
      invariant traversed <= budget
      invariant Consistent(p, s, done, level)
      invariant traversed < budget ==> NoneSkipped(s.visited, s.frontier, done, p.maxHops)
      decreases Unvisited(p, s) + |s.frontier|
    {
      var head := s.frontier[0];
      Popped(s, done, level, p.maxHops);
      s := s.(frontier := s.frontier[1..]);
      if head.hops >= p.maxHops || traversed >= budget {
        continue;
      }
      LevelVisited(p, s.visited, done, head.hops, head.hops);
      level := head.hops;
      ghost var finished;
      s, traversed, finished := ExpandEntity(p, s, traversed, head.id, head.hops, budget, done);
      if finished {
        done := done + {head.id};
      }
    }
    if traversed < budget {
      SearchComplete(p, s, done, level);
    }
  }

  /** The loop over the edges of one entity, cut off as soon as the budget is spent. */
  method ExpandEntity(p: Problem, s0: Search, traversed0: nat, u: EntityId, d: nat, budget: nat,
                      ghost done: set<EntityId>)
    returns (s: Search, traversed: nat, ghost finished: bool)
    requires traversed0 < budget && Expanding(p, s0, done, u, d)
    ensures Consistent(p, s, if finished then done + {u} else done, d)
    ensures if finished then traversed < budget && NoneSkipped(s.visited, s.frontier, done + {u}, p.maxHops)
            else traversed == budget
    ensures Unvisited(p, s) + |s.frontier| == Unvisited(p, s0) + |s0.frontier|
  {
    hide Within, Exact, Sound, RecordsEdge, NoneSkipped, Expanded, IsQueue, EnteredOnce, Followed;
    s, traversed, finished := s0, traversed0, true;
    assert Followed(p, s, u, d, 0) by { NoneFollowed(p, s, u, d); }
    for k := 0 to |p.edges|
      invariant traversed < budget && finished
      invariant Unvisited(p, s) + |s.frontier| == Unvisited(p, s0) + |s0.frontier|
      invariant Expanding(p, s, done, u, d) && Followed(p, s, u, d, k)
    {
      var edge := p.edges[k];
      if !Touches(edge, u) {
        OfferStep(p, s, s, done, u, d, k);
        continue;
      }
      traversed := traversed + 1;
      var next := if edge.source == u then edge.target else edge.source;
      if next in s.visited { NeverShortened(p, s.visited, edge, u); }
      if next !in s.visited || d + 1 < s.visited[next] {
        VisitStep(p, s, done, u, d, k);
        s := VisitNext(s, next, d + 1);
      }
      ghost var before := s;
      s := OfferEvidence(p, s, edge, u, d, done);
      OfferStep(p, before, s, done, u, d, k);
      if traversed >= budget {
        finished := false;
        break;
      }
    }
    if finished {
      EntityFinished(p, s, done, u, d);
    }
  }

  lemma NoneFollowed(p: Problem, s: Search, u: EntityId, d: nat)
    ensures Followed(p, s, u, d, 0)
  {
  }

  /** The inner loop: every evidence row of `edge` is offered at the hop count of this visit. */
  method OfferEvidence(p: Problem, s0: Search, edge: Edge, u: EntityId, d: nat, ghost done: set<EntityId>)
    returns (s: Search)
    requires Expanding(p, s0, done, u, d) && edge in p.edges && Touches(edge, u)
    ensures s == s0.(candidates := s.candidates)
    ensures Recorded(p, s.visited, s.candidates, done) && Sound(p, s.candidates)
    ensures RecordsEdge(p, s.candidates, edge, d + 1)
    ensures forall e, h :: RecordsEdge(p, s0.candidates, e, h) ==> RecordsEdge(p, s.candidates, e, h)
  {
    hide Within, Exact, NoneSkipped, Expanded, IsQueue, EnteredOnce, Recorded, RecordedBy, Sound;
    s := s0;
    var rows := if edge.id in p.evidence then p.evidence[edge.id] else [];
    for i := 0 to |rows|
      invariant s == s0.(candidates := s.candidates)
      invariant Expanding(p, s, done, u, d)
      invariant forall k :: 0 <= k < i ==> RecordedBy(s.candidates, rows[k], d + 1)
      invariant forall chunk, h :: RecordedBy(s0.candidates, chunk, h) ==> RecordedBy(s.candidates, chunk, h)
    {
      var candidate := Candidate(edge.id, rows[i], edge.confidence / (d + 1) as real, d + 1);
      OfferKeeps(p, s, done, edge, u, d, candidate);
      s := s.(candidates := Offer(s.candidates, candidate));
    }
    assert forall chunk :: Shows(p.evidence, edge, chunk) ==> chunk in rows;
    RecordsMore(p, s0.candidates, s.candidates);
  }
}
