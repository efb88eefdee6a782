/** The graph search of a query, told on the live texts alone: names, the texts they share, and distances. */
module GraphDistance {
  import opened Basics
  import opened GraphTypes
  import opened Extractor
  import opened GraphProjection
  import opened GraphTraversal
  import opened GraphSearch
  import opened StoreTypes
  import opened StoreSpec
  import opened PublishProofs

  /** The names within `n` steps of the query's own, where one step leads to any name of a text that both are in. */
  ghost function NamesNear(live: map<Uuid, string>, query: string, n: nat): set<string> {
    if n == 0 then Names(query) * NamesIn(live)
    else
      var near := NamesNear(live, query, n - 1);
      near + set c, a, b | c in live && a in Names(live[c]) && b in Names(live[c]) && a in near :: b
  }

  /** The chunk relates a name within `n` steps of the query to some other name. */
  ghost predicate RelatesNear(live: map<Uuid, string>, query: string, chunk: Uuid, n: nat) {
    chunk in live
    && exists a, b :: a in Names(live[chunk]) && b in Names(live[chunk]) && a != b && a in NamesNear(live, query, n)
  }

  /** The chunk is `hops` steps away from the query, counting the step into the chunk itself. */
  ghost predicate HopsAway(live: map<Uuid, string>, query: string, chunk: Uuid, hops: nat) {
    && hops >= 1 && RelatesNear(live, query, chunk, hops - 1)
    && (hops >= 2 ==> !RelatesNear(live, query, chunk, hops - 2))
  }

  // ------------------------------------------------- edges are pairs of names

  function PairEdge(scope: Scope, a: string, b: string): EdgeId {
    if NameLeq(a, b) then EdgeId(scope, EntityId(scope, a), EntityId(scope, b), CO_OCCURS)
    else EdgeId(scope, EntityId(scope, b), EntityId(scope, a), CO_OCCURS)
  }

  lemma PairIsRelated(scope: Scope, text: string, a: string, b: string)
    requires a in Names(text) && b in Names(text) && a != b
    ensures PairEdge(scope, a, b) in RelatedBy(scope, Relations(text))
  {
    hide NameLeq, Extract;
    RelationsAreExact(text);
    NameLeqTotal(a, b);
    var r := if NameLeq(a, b) then RelationCandidate(a, b, CO_OCCURS, CONFIDENCE)
             else RelationCandidate(b, a, CO_OCCURS, CONFIDENCE);
    assert r in Relations(text) && EdgeIdOf(scope, r) == PairEdge(scope, a, b);
  }

  lemma RelatedIsPair(scope: Scope, text: string, id: EdgeId) returns (a: string, b: string)
    requires id in RelatedBy(scope, Relations(text))
    ensures a in Names(text) && b in Names(text) && a != b
    ensures id == EdgeId(scope, EntityId(scope, a), EntityId(scope, b), CO_OCCURS)
  {
    hide NameLeq, Extract;
    RelationsAreExact(text);
    var r :| r in Relations(text) && EdgeIdOf(scope, r) == id;
    a, b := r.source, r.target;
  }

  /** The edges of the search are the edge rows of the live texts. */
  lemma EdgesAreRelated(s: Store, scope: Scope, query: string, maxHops: nat, p: Problem)
    requires StoreValid(s) && Poses(s.graph, scope, query, maxHops, p)
    ensures UniqueIds(s.chunks)
    ensures forall e :: e in p.edges <==> e.id in RelatedIn(scope, Live(s, scope)) && e == EdgeRow(e.id)
  {
    hide RecordsValid, VectorsPublished, TextsPublished, VectorFilesSound, LiveIn, RelatedIn, NamesIn, ShownIn,
         GroupsEvidence, SeedsOf, UniqueIds;
    ValidIsUnique(s);
    var live := Live(s, scope);
    assert RowsOf(s.graph, scope) == GraphFrom(scope, live);
    forall e
      ensures e in p.edges <==> e.id in RelatedIn(scope, live) && e == EdgeRow(e.id)
    {
      EdgeRowIs(s.graph, scope, RelatedIn(scope, live), e);
    }
  }

  lemma EdgeRowIs(g: Graph, scope: Scope, related: set<EdgeId>, e: Edge)
    requires KeysMatch(g) && EdgesOf(g.edges, scope) == EdgeRows(related)
    ensures e.id in g.edges && g.edges[e.id] == e && e.scope == scope <==> e.id in related && e == EdgeRow(e.id)
  {
    assert e.id in EdgesOf(g.edges, scope) <==> e.id in EdgeRows(related);
    if e.id in related { assert EdgesOf(g.edges, scope)[e.id] == EdgeRow(e.id); }
  }

  // ------------------------------------------------- distances agree

  lemma {:induction false} DistanceIsTextual(s: Store, scope: Scope, query: string, maxHops: nat, p: Problem, n: nat,
                                             v: EntityId)
    requires StoreValid(s) && Poses(s.graph, scope, query, maxHops, p)
    ensures UniqueIds(s.chunks)
    ensures v in Within(p.edges, p.seeds, n) <==> v.scope == scope && v.name in NamesNear(Live(s, scope), query, n)
    decreases n
  {
    hide StoreValid, Poses, LiveIn, Names, NamesIn, RelatedIn, UniqueIds, Shows, Relations, RelatedBy;
    SearchesLiveText(s, scope, query, maxHops, p);
    EdgesAreRelated(s, scope, query, maxHops, p);
    if n == 0 {
      assert QueryTerms(query) == Names(query) by { QueryNames(query); }
    } else {
      forall u
        ensures u in Within(p.edges, p.seeds, n - 1) <==>
                u.scope == scope && u.name in NamesNear(Live(s, scope), query, n - 1)
      {
        DistanceIsTextual(s, scope, query, maxHops, p, n - 1, u);
      }
      NextStep(p, scope, Live(s, scope), query, n, v);
    }
  }

  lemma QueryNames(query: string)
    ensures QueryTerms(query) == Names(query)
  {
  }

  lemma NextStep(p: Problem, scope: Scope, live: map<Uuid, string>, query: string, n: nat, v: EntityId)
    requires n > 0 && forall e :: e in p.edges <==> e.id in RelatedIn(scope, live) && e == EdgeRow(e.id)
    requires forall u :: u in Within(p.edges, p.seeds, n - 1) <==>
               u.scope == scope && u.name in NamesNear(live, query, n - 1)
    ensures v in Within(p.edges, p.seeds, n) <==> v.scope == scope && v.name in NamesNear(live, query, n)
  {
    hide Names, RelatedBy, Relations;
    var near, names := Within(p.edges, p.seeds, n - 1), NamesNear(live, query, n - 1);
    if v in Within(p.edges, p.seeds, n) && v !in near {
      var e, u :| e in p.edges && u in near && Touches(e, u) && Other(e, u) == v;
      var c :| c in live && e.id in RelatedBy(scope, Relations(live[c]));
      var a, b := RelatedIsPair(scope, live[c], e.id);
      assert u.name in Names(live[c]) && v.name in Names(live[c]) && u.name in names;
    }
    if v.scope == scope && v.name in NamesNear(live, query, n) && v.name !in names {
      var c, a :| c in live && a in Names(live[c]) && v.name in Names(live[c]) && a in names;
      PairIsRelated(scope, live[c], a, v.name);
      var e := EdgeRow(PairEdge(scope, a, v.name));
      assert e.id in RelatedIn(scope, live);
      assert e in p.edges && EntityId(scope, a) in near && Touches(e, EntityId(scope, a));
      assert Other(e, EntityId(scope, a)) == v;
    }
  }

  lemma EvidenceIsTextual(s: Store, scope: Scope, query: string, maxHops: nat, p: Problem, chunk: Uuid, n: nat)
    requires StoreValid(s) && Poses(s.graph, scope, query, maxHops, p)
    ensures UniqueIds(s.chunks)
    ensures EvidencedWithin(p.edges, p.evidence, p.seeds, chunk, n) <==> RelatesNear(Live(s, scope), query, chunk, n)
  {
    hide StoreValid, Poses, LiveIn, Names, NamesIn, UniqueIds, Shows, Relations, RelatedBy, Within, NamesNear;
    SearchesLiveText(s, scope, query, maxHops, p);
    EdgesAreRelated(s, scope, query, maxHops, p);
    var live := Live(s, scope);
    if EvidencedWithin(p.edges, p.evidence, p.seeds, chunk, n) {
      var e, v :| e in p.edges && Shows(p.evidence, e, chunk) && Touches(e, v) && v in Within(p.edges, p.seeds, n);
      var a, b := RelatedIsPair(scope, live[chunk], e.id);
      DistanceIsTextual(s, scope, query, maxHops, p, n, v);
      assert v.name == a || v.name == b;
    }
    if RelatesNear(live, query, chunk, n) {
      var a, b :| a in Names(live[chunk]) && b in Names(live[chunk]) && a != b && a in NamesNear(live, query, n);
      PairIsRelated(scope, live[chunk], a, b);
      var e := EdgeRow(PairEdge(scope, a, b));
      assert e.id in RelatedIn(scope, live);
      assert Shows(p.evidence, e, chunk) && Touches(e, EntityId(scope, a));
      DistanceIsTextual(s, scope, query, maxHops, p, n, EntityId(scope, a));
    }
  }

  /** Hop counts over the graph tables are hop counts over the live texts. */
  lemma HopsAreTextual(s: Store, scope: Scope, query: string, maxHops: nat, p: Problem, chunk: Uuid, hops: nat)
    requires StoreValid(s) && Poses(s.graph, scope, query, maxHops, p)
    ensures UniqueIds(s.chunks)
    ensures ExactHops(p.edges, p.evidence, p.seeds, chunk, hops) <==> HopsAway(Live(s, scope), query, chunk, hops)
  {
    hide StoreValid, Poses, LiveIn, UniqueIds, EvidencedWithin, RelatesNear;
    ValidIsUnique(s);
    if hops >= 1 { EvidenceIsTextual(s, scope, query, maxHops, p, chunk, hops - 1); }
    if hops >= 2 { EvidenceIsTextual(s, scope, query, maxHops, p, chunk, hops - 2); }
  }
}
