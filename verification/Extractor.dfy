/** The deterministic keyword extractor: a bounded set of names and all their unordered pairs. */
module Extractor {
  import opened Basics
  import opened GraphTypes
  import Text
  import Chunker

  /** Rust's Unicode tables. The model holds for any tables, so the constant is left open. */
  datatype UnicodeTables = UnicodeTables(isAlphanumeric: char -> bool, isAlphabetic: char -> bool,
                                         toLowercase: string -> string)

  const UNICODE: UnicodeTables

  const MAX_ENTITIES_PER_CHUNK := 8

  datatype EntityCandidate = EntityCandidate(normalizedName: string, displayName: string)

  datatype RelationCandidate = RelationCandidate(source: string, target: string, relation: string, confidence: real)

  datatype Extraction = Extraction(entities: seq<EntityCandidate>, relations: seq<RelationCandidate>)

  predicate IsStopword(term: string) {
    term in ["the", "and", "for", "with", "from", "that", "this", "are", "was", "were", "into", "about",
             "para", "com", "uma", "que", "dos", "das", "por", "n\U{E3}o", "nos", "nas", "tem", "s\U{E3}o"]
  }

  predicate IsKeyword(name: string) {
    && Text.Utf8Len(name) >= 3
    && !IsStopword(name)
    && exists i :: 0 <= i < |name| && UNICODE.isAlphabetic(name[i])
  }

  /** The maximal alphanumeric runs, with the empty runs between adjacent separators. */
  function SplitWords(content: string): (words: seq<string>)
    ensures words != []
  {
    if content == "" then [""]
    else
      var rest := SplitWords(content[1..]);
      if !UNICODE.isAlphanumeric(content[0]) then [""] + rest
      else [[content[0]] + rest[0]] + rest[1..]
  }

  function CandidateOf(raw: string): EntityCandidate {
    EntityCandidate(UNICODE.toLowercase(Chunker.Trim(raw)), Chunker.Trim(raw))
  }

  /** The candidates a sequence of words offers, stopwords and short words dropped. */
  function Keywords(words: seq<string>): seq<EntityCandidate> {
    if words == [] then []
    else (if IsKeyword(CandidateOf(words[0]).normalizedName) then [CandidateOf(words[0])] else [])
         + Keywords(words[1..])
  }

  function NamesOf(entities: seq<EntityCandidate>): set<string> {
    set e | e in entities :: e.normalizedName
  }

  /** `more` with everything named before, in `taken` or in `more` itself, left out. */
  function Unseen(taken: seq<EntityCandidate>, more: seq<EntityCandidate>): seq<EntityCandidate>
    decreases |more|
  {
    if more == [] then []
    else if more[0].normalizedName in NamesOf(taken) then Unseen(taken, more[1..])
    else [more[0]] + Unseen(taken + [more[0]], more[1..])
  }

  function FirstFew(entities: seq<EntityCandidate>): seq<EntityCandidate> {
    if |entities| <= MAX_ENTITIES_PER_CHUNK then entities else entities[..MAX_ENTITIES_PER_CHUNK]
  }

  /** The first eight distinct keywords, in order of appearance. */
  function Entities(content: string): seq<EntityCandidate> {
    FirstFew(Unseen([], Keywords(SplitWords(content))))
  }

  /** Rust's `<=` on `String`: UTF-8 byte order, which is code-point order. */
  predicate NameLeq(a: string, b: string) {
    a == "" || (b != "" && (a[0] < b[0] || (a[0] == b[0] && NameLeq(a[1..], b[1..]))))
  }

  function Relate(a: string, b: string): RelationCandidate {
    if NameLeq(a, b) then RelationCandidate(a, b, CO_OCCURS, CONFIDENCE)
    else RelationCandidate(b, a, CO_OCCURS, CONFIDENCE)
  }

  /** Entity `i` paired with the entities `j`, `j + 1`, ... */
  function PairsWith(entities: seq<EntityCandidate>, i: nat, j: nat): seq<RelationCandidate>
    requires i < |entities| && j <= |entities|
    decreases |entities| - j
  {
    if j == |entities| then []
    else [Relate(entities[i].normalizedName, entities[j].normalizedName)] + PairsWith(entities, i, j + 1)
  }

  function PairsFrom(entities: seq<EntityCandidate>, i: nat): seq<RelationCandidate>
    requires i <= |entities|
    decreases |entities| - i
  {
    if i == |entities| then [] else PairsWith(entities, i, i + 1) + PairsFrom(entities, i + 1)
  }

  function Extract(content: string): Extraction {
    Extraction(Entities(content), PairsFrom(Entities(content), 0))
  }

  // ------------------------------------------------------------ the loops

  method ExtractLoop(content: string) returns (extraction: Extraction)
    ensures extraction == Extract(content)
  {
    var words := SplitWords(content);
    var entities := SelectEntities(words);
    var relations := [];
    for offset := 0 to |entities|
      invariant PairsFrom(entities, 0) == relations + PairsFrom(entities, offset)
    {
      var pairs := PairEntity(entities, offset);
      Associative(relations, pairs, PairsFrom(entities, offset + 1));
      relations := relations + pairs;
    }
    extraction := Extraction(entities, relations);
  }

  method PairEntity(entities: seq<EntityCandidate>, offset: nat) returns (relations: seq<RelationCandidate>)
    requires offset < |entities|
    ensures relations == PairsWith(entities, offset, offset + 1)
  {
    hide NameLeq, Relate;
    relations := [];
    for j := offset + 1 to |entities|
      invariant relations + PairsWith(entities, offset, j) == PairsWith(entities, offset, offset + 1)
    {
      var r := Relate(entities[offset].normalizedName, entities[j].normalizedName);
      Associative(relations, [r], PairsWith(entities, offset, j + 1));
      relations := relations + [r];
    }
  }

  /** The word loop: `seen` filters repeats and the eighth entity ends the scan. */
  method SelectEntities(words: seq<string>) returns (entities: seq<EntityCandidate>)
    ensures entities == FirstFew(Unseen([], Keywords(words)))
  {
    hide IsKeyword, CandidateOf;
    var seen: set<string> := {};
    entities := [];
    assert words[0..] == words;
    for i := 0 to |words|
      invariant |entities| < MAX_ENTITIES_PER_CHUNK
      invariant seen == NamesOf(entities)
      invariant Unseen([], Keywords(words)) == entities + Unseen(entities, Keywords(words[i..]))
    {
      var candidate := CandidateOf(words[i]);
      ghost var rest := Keywords(words[i + 1..]);
      assert words[i..][1..] == words[i + 1..];
      if !IsKeyword(candidate.normalizedName) {
        assert Keywords(words[i..]) == rest;
        continue;
      }
      assert Keywords(words[i..]) == [candidate] + rest && ([candidate] + rest)[1..] == rest;
      if candidate.normalizedName !in seen {
        NamesOfOneMore(entities, candidate);
        Associative(entities, [candidate], Unseen(entities + [candidate], rest));
        seen := seen + {candidate.normalizedName};
        entities := entities + [candidate];
        if |entities| >= MAX_ENTITIES_PER_CHUNK {
          return;
        }
      }
    }
  }

  lemma NamesOfOneMore(entities: seq<EntityCandidate>, candidate: EntityCandidate)
    ensures NamesOf(entities + [candidate]) == NamesOf(entities) + {candidate.normalizedName}
  {
    assert forall e :: e in entities + [candidate] <==> e in entities || e == candidate;
  }

  // ------------------------------------------------------------ promises

  ghost predicate DistinctNames(entities: seq<EntityCandidate>) {
    forall i, j :: 0 <= i < j < |entities| ==> entities[i].normalizedName != entities[j].normalizedName
  }

  lemma {:induction false} UnseenDistinct(taken: seq<EntityCandidate>, more: seq<EntityCandidate>)
    ensures DistinctNames(Unseen(taken, more))
    ensures forall e :: e in Unseen(taken, more) ==> e in more && e.normalizedName !in NamesOf(taken)
    ensures forall e :: e in more ==> e.normalizedName in NamesOf(taken) + NamesOf(Unseen(taken, more))
    decreases |more|
  {
    if more != [] {
      if more[0].normalizedName in NamesOf(taken) {
        UnseenDistinct(taken, more[1..]);
        assert more == [more[0]] + more[1..];
      } else {
        var rest := Unseen(taken + [more[0]], more[1..]);
        UnseenDistinct(taken + [more[0]], more[1..]);
        NamesOfOneMore(taken, more[0]);
        assert more == [more[0]] + more[1..];
        var all := [more[0]] + rest;
        assert forall e :: e in all <==> e == more[0] || e in rest;
      }
    }
  }

  /** Word `p` offers the keyword `name`. */
  predicate Offers(words: seq<string>, p: nat, name: string)
    requires p < |words|
  {
    CandidateOf(words[p]).normalizedName == name && IsKeyword(name)
  }

  /** `at` says where in the content each entity comes from: in order, each from the first word that offers its name. */
  ghost predicate FirstOffers(words: seq<string>, entities: seq<EntityCandidate>, at: seq<nat>) {
    && |at| == |entities| && (forall i, j :: 0 <= i < j < |at| ==> at[i] < at[j])
    && (forall i :: 0 <= i < |at| ==> FirstOffer(words, at[i], entities[i]))
  }

  ghost predicate FirstOffer(words: seq<string>, p: nat, e: EntityCandidate) {
    && p < |words| && e == CandidateOf(words[p]) && Offers(words, p, e.normalizedName)
    && forall o :: 0 <= o < p ==> !Offers(words, o, e.normalizedName)
  }

  function Shifted(at: seq<nat>): (r: seq<nat>)
    ensures |r| == |at| && forall i :: 0 <= i < |at| ==> r[i] == at[i] + 1
  {
    seq(|at|, i requires 0 <= i < |at| => at[i] + 1)
  }

  /** The new names of a sequence of words, with the words that offer them first; no name is missing. */
  lemma {:induction false} UnseenAreFirst(taken: seq<EntityCandidate>, words: seq<string>) returns (at: seq<nat>)
    ensures FirstOffers(words, Unseen(taken, Keywords(words)), at)
    ensures forall p, name :: 0 <= p < |words| && Offers(words, p, name) ==>
              name in NamesOf(taken) + NamesOf(Unseen(taken, Keywords(words)))
    decreases |words|
  {
    hide CandidateOf, IsKeyword, FirstOffers, NamesOf, Unseen, Offers, Keywords;
    if words == [] {
      at := [];
      NoWords(taken);
    } else {
      var c := CandidateOf(words[0]);
      FirstWord(taken, words);
      if !IsKeyword(c.normalizedName) || c.normalizedName in NamesOf(taken) {
        var rest := UnseenAreFirst(taken, words[1..]);
        at := Shifted(rest);
        UnseenLacks(taken, Keywords(words[1..]));
        SkipWord(taken, words, Unseen(taken, Keywords(words[1..])), rest);
      } else {
        var rest := UnseenAreFirst(taken + [c], words[1..]);
        at := [0] + Shifted(rest);
        NamesOfOneMore(taken, c);
        UnseenLacks(taken + [c], Keywords(words[1..]));
        TakeWord(taken, words, Unseen(taken + [c], Keywords(words[1..])), rest);
      }
    }
  }

  lemma NoWords(taken: seq<EntityCandidate>)
    ensures FirstOffers([], Unseen(taken, Keywords([])), [])
  {
  }

  /** What the first word does to the names that are still to be found. */
  lemma FirstWord(taken: seq<EntityCandidate>, words: seq<string>)
    requires words != []
    ensures var c := CandidateOf(words[0]);
      Unseen(taken, Keywords(words)) ==
        if !IsKeyword(c.normalizedName) || c.normalizedName in NamesOf(taken) then Unseen(taken, Keywords(words[1..]))
        else [c] + Unseen(taken + [c], Keywords(words[1..]))
    ensures forall name :: Offers(words, 0, name) <==>
              name == CandidateOf(words[0]).normalizedName && IsKeyword(CandidateOf(words[0]).normalizedName)
    ensures forall p, name :: 0 < p < |words| ==> (Offers(words, p, name) <==> Offers(words[1..], p - 1, name))
  {
    hide CandidateOf, IsKeyword, NamesOf;
    var c := CandidateOf(words[0]);
    if IsKeyword(c.normalizedName) {
      assert Keywords(words) == [c] + Keywords(words[1..]);
      assert ([c] + Keywords(words[1..]))[1..] == Keywords(words[1..]);
    } else {
      assert Keywords(words) == [] + Keywords(words[1..]) == Keywords(words[1..]);
    }
  }

  lemma UnseenLacks(taken: seq<EntityCandidate>, more: seq<EntityCandidate>)
    ensures forall e :: e in Unseen(taken, more) ==> e.normalizedName !in NamesOf(taken)
  {
    UnseenDistinct(taken, more);
  }

  lemma SkipWord(taken: seq<EntityCandidate>, words: seq<string>, found: seq<EntityCandidate>, rest: seq<nat>)
    requires words != [] && FirstOffers(words[1..], found, rest)
    requires forall e :: e in found ==> e.normalizedName !in NamesOf(taken)
    requires forall p, name :: 0 <= p < |words[1..]| && Offers(words[1..], p, name) ==>
               name in NamesOf(taken) + NamesOf(found)
    requires var name := CandidateOf(words[0]).normalizedName; !IsKeyword(name) || name in NamesOf(taken)
    ensures FirstOffers(words, found, Shifted(rest))
    ensures forall p, name :: 0 <= p < |words| && Offers(words, p, name) ==> name in NamesOf(taken) + NamesOf(found)
  {
    hide CandidateOf, IsKeyword, NamesOf, Keywords, Unseen;
    var at := Shifted(rest);
    forall i | 0 <= i < |at|
      ensures FirstOffer(words, at[i], found[i])
    {
      assert found[i] in found;
      LaterOffer(words, rest[i], found[i]);
    }
    forall p, name | 0 <= p < |words| && Offers(words, p, name)
      ensures name in NamesOf(taken) + NamesOf(found)
    {
      if p > 0 { assert Offers(words[1..], p - 1, name); }
    }
  }

  /** A first offer in the rest is one in the whole, unless the first word already offers the name. */
  lemma LaterOffer(words: seq<string>, p: nat, e: EntityCandidate)
    requires words != [] && FirstOffer(words[1..], p, e) && !Offers(words, 0, e.normalizedName)
    ensures FirstOffer(words, p + 1, e)
  {
    hide CandidateOf, IsKeyword;
    forall o | 0 <= o < p + 1
      ensures !Offers(words, o, e.normalizedName)
    {
      if o > 0 { assert !Offers(words[1..], o - 1, e.normalizedName); }
    }
  }

  lemma TakeWord(taken: seq<EntityCandidate>, words: seq<string>, found: seq<EntityCandidate>, rest: seq<nat>)
    requires words != [] && FirstOffers(words[1..], found, rest) && IsKeyword(CandidateOf(words[0]).normalizedName)
    requires forall e :: e in found ==> e.normalizedName != CandidateOf(words[0]).normalizedName
    requires forall p, name :: 0 <= p < |words[1..]| && Offers(words[1..], p, name) ==>
               name in NamesOf(taken) + {CandidateOf(words[0]).normalizedName} + NamesOf(found)
    ensures FirstOffers(words, [CandidateOf(words[0])] + found, [0] + Shifted(rest))
    ensures forall p, name :: 0 <= p < |words| && Offers(words, p, name) ==>
              name in NamesOf(taken) + NamesOf([CandidateOf(words[0])] + found)
  {
    hide CandidateOf, IsKeyword, FirstOffers;
    var c := CandidateOf(words[0]);
    TakeOffers(words, found, rest);
    assert NamesOf([c] + found) == {c.normalizedName} + NamesOf(found) by {
      assert forall e :: e in [c] + found <==> e == c || e in found;
    }
    forall p, name | 0 <= p < |words| && Offers(words, p, name)
      ensures name in NamesOf(taken) + NamesOf([c] + found)
    {
      if p > 0 { assert Offers(words[1..], p - 1, name); }
    }
  }

  lemma TakeOffers(words: seq<string>, found: seq<EntityCandidate>, rest: seq<nat>)
    requires words != [] && FirstOffers(words[1..], found, rest) && IsKeyword(CandidateOf(words[0]).normalizedName)
    requires forall e :: e in found ==> e.normalizedName != CandidateOf(words[0]).normalizedName
    ensures FirstOffers(words, [CandidateOf(words[0])] + found, [0] + Shifted(rest))
  {
    hide CandidateOf, IsKeyword;
    var all, at := [CandidateOf(words[0])] + found, [0] + Shifted(rest);
    forall i | 0 <= i < |at|
      ensures FirstOffer(words, at[i], all[i])
    {
      if i > 0 {
        assert found[i - 1] in found;
        LaterOffer(words, rest[i - 1], found[i - 1]);
      }
    }
  }

  lemma {:induction false} NameLeqTotal(a: string, b: string)
    ensures NameLeq(a, b) || NameLeq(b, a)
    ensures NameLeq(a, b) && NameLeq(b, a) ==> a == b
  {
    if a != "" && b != "" {
      NameLeqTotal(a[1..], b[1..]);
      assert a == [a[0]] + a[1..] && b == [b[0]] + b[1..];
    }
  }

  lemma {:induction false} PairsWithExact(entities: seq<EntityCandidate>, i: nat, j: nat)
    requires i < |entities| && j <= |entities|
    ensures |PairsWith(entities, i, j)| == |entities| - j
    ensures forall k :: 0 <= k < |entities| - j ==>
              PairsWith(entities, i, j)[k] == Relate(entities[i].normalizedName, entities[j + k].normalizedName)
    decreases |entities| - j
  {
    if j < |entities| {
      PairsWithExact(entities, i, j + 1);
    }
  }

  ghost predicate IsPair(entities: seq<EntityCandidate>, i: int, j: int, r: RelationCandidate) {
    0 <= i < j < |entities| && r == Relate(entities[i].normalizedName, entities[j].normalizedName)
  }

  lemma {:induction false} PairsFromExact(entities: seq<EntityCandidate>, first: nat)
    requires first <= |entities|
    ensures forall r :: r in PairsFrom(entities, first) <==> exists i, j :: first <= i && IsPair(entities, i, j, r)
    decreases |entities| - first
  {
    if first < |entities| {
      PairsFromExact(entities, first + 1);
      PairsWithExact(entities, first, first + 1);
      var head := PairsWith(entities, first, first + 1);
      forall r
        ensures r in PairsFrom(entities, first) <==> exists i, j :: first <= i && IsPair(entities, i, j, r)
      {
        if r in head {
          var k :| 0 <= k < |head| && head[k] == r;
          assert IsPair(entities, first, first + 1 + k, r);
        }
        if i, j :| first <= i && IsPair(entities, i, j, r) {
          if i == first { assert head[j - first - 1] == r; }
        }
      }
    }
  }

  lemma RelationsJoinTwoNames(entities: seq<EntityCandidate>, r: RelationCandidate)
    requires DistinctNames(entities) && r in PairsFrom(entities, 0)
    ensures r.source in NamesOf(entities) && r.target in NamesOf(entities) && r.source != r.target
    ensures NameLeq(r.source, r.target) && r.relation == CO_OCCURS && r.confidence == CONFIDENCE
  {
    PairsFromExact(entities, 0);
    var i, j :| 0 <= i && IsPair(entities, i, j, r);
    assert entities[i] in entities && entities[j] in entities;
    NameLeqTotal(entities[i].normalizedName, entities[j].normalizedName);
  }

  lemma NamesAreRelated(entities: seq<EntityCandidate>, a: string, b: string)
    requires a in NamesOf(entities) && b in NamesOf(entities) && a != b && NameLeq(a, b)
    ensures RelationCandidate(a, b, CO_OCCURS, CONFIDENCE) in PairsFrom(entities, 0)
  {
    PairsFromExact(entities, 0);
    NameLeqTotal(a, b);
    var e, f :| e in entities && e.normalizedName == a && f in entities && f.normalizedName == b;
    var i :| 0 <= i < |entities| && entities[i] == e;
    var j :| 0 <= j < |entities| && entities[j] == f;
    assert IsPair(entities, if i < j then i else j, if i < j then j else i,
                  RelationCandidate(a, b, CO_OCCURS, CONFIDENCE));
  }

  /** At most eight distinct names, and a relation for exactly the pairs of them. */
  lemma RelationsAreExact(content: string)
    ensures var x := Extract(content);
      && |x.entities| <= MAX_ENTITIES_PER_CHUNK
      && DistinctNames(x.entities)
      && (forall r :: r in x.relations ==>
            && r.source in NamesOf(x.entities) && r.target in NamesOf(x.entities)
            && r.source != r.target && NameLeq(r.source, r.target)
            && r.relation == CO_OCCURS && r.confidence == CONFIDENCE)
      && (forall a, b :: a in NamesOf(x.entities) && b in NamesOf(x.entities) && a != b ==>
            (RelationCandidate(a, b, CO_OCCURS, CONFIDENCE) in x.relations <==> NameLeq(a, b)))
  {
    hide NameLeq, Relate, PairsFrom, Keywords, SplitWords, NamesOf;
    var es := Extract(content).entities;
    UnseenDistinct([], Keywords(SplitWords(content)));
    forall r | r in Extract(content).relations
      ensures r.source in NamesOf(es) && r.target in NamesOf(es) && r.source != r.target
      ensures NameLeq(r.source, r.target) && r.relation == CO_OCCURS && r.confidence == CONFIDENCE
    {
      RelationsJoinTwoNames(es, r);
    }
    forall a, b | a in NamesOf(es) && b in NamesOf(es) && a != b && NameLeq(a, b)
      ensures RelationCandidate(a, b, CO_OCCURS, CONFIDENCE) in Extract(content).relations
    {
      NamesAreRelated(es, a, b);
    }
  }

  /**
   * The entities are the first distinct keywords of the content: each comes from the first word that
   * offers its name, in order, and a keyword is missing only when eight others were met before it.
   */
  lemma EntitiesAreFirst(content: string) returns (at: seq<nat>)
    ensures FirstOffers(SplitWords(content), Entities(content), at)
    ensures forall p, name :: 0 <= p < |SplitWords(content)| && Offers(SplitWords(content), p, name) ==>
              name in NamesOf(Entities(content)) || (|at| == MAX_ENTITIES_PER_CHUNK && at[|at| - 1] < p)
  {
    hide CandidateOf, IsKeyword, SplitWords, Keywords, Unseen;
    var words := SplitWords(content);
    var all := Unseen([], Keywords(words));
    var from := UnseenAreFirst([], words);
    at := if |all| <= MAX_ENTITIES_PER_CHUNK then from else from[..MAX_ENTITIES_PER_CHUNK];
    forall p, name | 0 <= p < |words| && Offers(words, p, name)
      ensures name in NamesOf(Entities(content)) || (|at| == MAX_ENTITIES_PER_CHUNK && at[|at| - 1] < p)
    {
      var e :| e in all && e.normalizedName == name;
      var i :| 0 <= i < |all| && all[i] == e;
      assert FirstOffer(words, from[i], all[i]);
      assert from[i] <= p;
      if i < |at| { assert e == Entities(content)[i]; }
    }
  }

  /** `query_terms`: the names a query would be indexed under. */
  function QueryTerms(query: string): set<string> {
    NamesOf(Extract(query).entities)
  }
}
