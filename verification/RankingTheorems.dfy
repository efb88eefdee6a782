/** What the ranking of retrieved chunks means, in terms of scores and distances. */
module RankingTheorems {
  import opened Basics
  import opened StoreTypes
  import opened Sorting
  import opened Retrieval

  /** An absent score counts as zero. */
  function Present(score: Option<real>): real {
    match score
    case None => 0.0
    case Some(x) => x
  }

  /** Document, then position in the document. */
  predicate Earlier(a: Hit, b: Hit) {
    || a.chunk.documentId < b.chunk.documentId
    || (a.chunk.documentId == b.chunk.documentId && a.chunk.ordinal < b.chunk.ordinal)
  }

  function Times(x: real, m: real): real {
    x * m
  }

  /**
   * What a hit weighs when `m` is the greatest lexical score, scaled by `m`: a lexical point weighs 1, a
   * vector point 2 m and a graph point m / 2; without lexical scores the other two decide.
   */
  function Weight(h: Hit, m: real): real {
    if m > 0.0 then Present(h.lexical) + 2.0 * Times(Present(h.vector), m) + 0.5 * Times(Present(h.graph), m)
    else 2.0 * Present(h.vector) + 0.5 * Present(h.graph)
  }

  lemma FusedIsWeight(h: Hit, m: real)
    requires m >= 0.0
    ensures m > 0.0 ==> Times(Fused(h, m), m) == Weight(h, m)
    ensures m == 0.0 ==> Fused(h, m) == Weight(h, m)
  {
    if m > 0.0 { Distributes(Present(h.lexical) / m, Present(h.vector), Present(h.graph), m); }
  }

  lemma Distributes(x: real, v: real, g: real, m: real)
    ensures Times(x + v * 2.0 + g * 0.5, m) == x * m + 2.0 * Times(v, m) + 0.5 * Times(g, m)
  {
  }

  lemma Scales(p: real, q: real, m: real)
    requires m > 0.0
    ensures p > q <==> Times(p, m) > Times(q, m)
    ensures p == q <==> Times(p, m) == Times(q, m)
  {
  }

  lemma WeightOrders(a: Hit, b: Hit, m: real)
    requires m >= 0.0
    ensures Fused(a, m) > Fused(b, m) <==> Weight(a, m) > Weight(b, m)
    ensures Fused(a, m) == Fused(b, m) <==> Weight(a, m) == Weight(b, m)
  {
    hide Fused, Weight, Times;
    FusedIsWeight(a, m);
    FusedIsWeight(b, m);
    if m > 0.0 { Scales(Fused(a, m), Fused(b, m), m); }
  }

  lemma NotAfterMeans(a: Hit, b: Hit, m: real)
    requires NotAfter(a, b, m)
    ensures Fused(a, m) >= Fused(b, m) && (Fused(a, m) == Fused(b, m) ==> !Earlier(b, a))
  {
    hide Fused;
  }

  /** The exact order of two hits: by weight, and with equal weights by document and position. */
  lemma RankedByWeight(s: Store, scope: Scope, profile: Profile, trace: Trace, i: nat, j: nat)
    requires UniqueIds(s.chunks) && IsRanking(s, scope, profile, trace)
    requires i < |trace.all| && j < |trace.all|
    ensures var (a, b, m) := (trace.all[i], trace.all[j], trace.maxLexical);
      && m >= 0.0
      && (Weight(a, m) > Weight(b, m) ==> i < j)
      && (Weight(a, m) == Weight(b, m) && Earlier(a, b) ==> i < j)
  {
    hide Fused, Weight, NotAfter, Earlier, AreTheHits, Distinct, UniqueIds;
    var (a, b, m) := (trace.all[i], trace.all[j], trace.maxLexical);
    WeightOrders(a, b, m);
    if j < i {
      assert NotAfter(b, a, m);
      NotAfterMeans(b, a, m);
    } else if i == j {
      assert !Earlier(a, a) by { NeverEarlier(a); }
    }
  }

  lemma NeverEarlier(a: Hit)
    ensures !Earlier(a, a)
  {
  }

  /** A hit that is at least as good in all three scores and better in one stands first. */
  lemma BetterStandsFirst(s: Store, scope: Scope, profile: Profile, trace: Trace, i: nat, j: nat)
    requires UniqueIds(s.chunks) && IsRanking(s, scope, profile, trace)
    requires i < |trace.all| && j < |trace.all|
    requires var (a, b) := (trace.all[i], trace.all[j]);
      && Present(a.lexical) >= Present(b.lexical) && Present(a.vector) >= Present(b.vector)
      && Present(a.graph) >= Present(b.graph)
      && (|| Present(a.vector) > Present(b.vector)
          || Present(a.graph) > Present(b.graph)
          || (Present(a.lexical) > Present(b.lexical) && Present(a.lexical) > 0.0))
    ensures i < j
  {
    hide UniqueIds, AreTheHits, Distinct, SortedBy, Fused, Times, Earlier;
    var (a, b, m) := (trace.all[i], trace.all[j], trace.maxLexical);
    assert a in trace.all && OrZero(a.lexical) <= m;
    RankedByWeight(s, scope, profile, trace, i, j);
    if m > 0.0 {
      Scales(Present(a.vector), Present(b.vector), m);
      Scales(Present(a.graph), Present(b.graph), m);
    }
  }

  /** The distance of a hit's vector from the query, as the vector search reported it. */
  ghost predicate AtDistance(s: Store, profile: Profile, searches: Searches, h: Hit, distance: real)
    requires searches.distances.Ok?
  {
    && h.chunk.id in s.vectors.manifests && s.vectors.manifests[h.chunk.id].profile == profile
    && s.vectors.manifests[h.chunk.id].annKey in searches.distances.value
    && searches.distances.value[s.vectors.manifests[h.chunk.id].annKey] == distance
  }

  /** A vector score is one minus the distance, and never below zero; without a distance there is none. */
  lemma VectorScoreIs(s: Store, scope: Scope, profile: Profile, query: string, searches: Searches, limit: nat,
                      trace: Trace, h: Hit)
    requires UniqueIds(s.chunks) && Searched(s, scope, query, searches, limit, trace)
    requires IsHit(s, scope, profile, trace.found, h)
    ensures h.vector.None? <==> !exists d :: AtDistance(s, profile, searches, h, d)
    ensures forall d :: AtDistance(s, profile, searches, h, d) ==>
              h.vector == Some(if d < 1.0 then 1.0 - d else 0.0)
  {
    hide UniqueIds, LiveIn, GraphFound, HasGeneration;
    if h.vector.Some? {
      var key := s.vectors.manifests[h.chunk.id].annKey;
      assert AtDistance(s, profile, searches, h, searches.distances.value[key]);
    }
  }

  /** Of two chunks that only the vector search found, the nearer one stands first. */
  lemma NearerStandsFirst(s: Store, scope: Scope, profile: Profile, query: string, searches: Searches, limit: nat,
                          trace: Trace, i: nat, j: nat, di: real, dj: real)
    requires UniqueIds(s.chunks) && Searched(s, scope, query, searches, limit, trace)
    requires IsRanking(s, scope, profile, trace) && i < |trace.all| && j < |trace.all|
    requires AtDistance(s, profile, searches, trace.all[i], di) && AtDistance(s, profile, searches, trace.all[j], dj)
    requires trace.all[i].lexical.None? && trace.all[i].graph.None?
    requires trace.all[j].lexical.None? && trace.all[j].graph.None?
    requires di < dj && di < 1.0
    ensures i < j
  {
    hide UniqueIds, IsHit, GraphFound, Distinct, SortedBy, IsMaxLexical, AtDistance, Searched;
    assert trace.all[i] in trace.all && trace.all[j] in trace.all;
    VectorScoreIs(s, scope, profile, query, searches, limit, trace, trace.all[i]);
    VectorScoreIs(s, scope, profile, query, searches, limit, trace, trace.all[j]);
    BetterStandsFirst(s, scope, profile, trace, i, j);
  }

  /** Each search is asked for four candidates for every result wanted, short of the machine maximum. */
  lemma AsksFourfold(limit: nat)
    ensures limit <= 0x3FFF_FFFF_FFFF_FFFF ==> Widened(limit) == 4 * limit
    ensures Widened(limit) >= limit
  {
  }
}
