/** What the extractor finds, told on the content itself: its maximal alphanumeric runs and their names. */
module ExtractorTheorems {
  import opened Extractor
  import Text
  import Chunker

  // ------------------------------------------------- words are the maximal runs

  predicate AllAlphanumeric(w: string) {
    forall i :: 0 <= i < |w| ==> UNICODE.isAlphanumeric(w[i])
  }

  /** `w` stands at position `a` of the content, is alphanumeric, and extends no further on either side. */
  predicate IsRun(content: string, a: nat, w: string) {
    && a + |w| <= |content| && content[a..a + |w|] == w && AllAlphanumeric(w)
    && (a > 0 ==> !UNICODE.isAlphanumeric(content[a - 1]))
    && (a + |w| < |content| ==> !UNICODE.isAlphanumeric(content[a + |w|]))
  }

  lemma RunsAreUnique(content: string, a: nat, v: string, w: string)
    requires IsRun(content, a, v) && IsRun(content, a, w)
    ensures v == w
  {
    assert forall i :: 0 <= i < |v| ==> v[i] == content[a + i];
    assert forall i :: 0 <= i < |w| ==> w[i] == content[a + i];
  }

  /** Where word `p` stands: one separator follows each word. */
  function StartOf(words: seq<string>, p: nat): nat
    requires p < |words|
  {
    if p == 0 then 0 else StartOf(words, p - 1) + |words[p - 1]| + 1
  }

  lemma {:induction false} StartsAscend(words: seq<string>, p: nat, q: nat)
    requires p < q < |words|
    ensures StartOf(words, p) < StartOf(words, q)
  {
    if p < q - 1 { StartsAscend(words, p, q - 1); }
  }

  lemma {:induction false} StartShifts(first: string, words: seq<string>, p: nat)
    requires p < |words|
    ensures StartOf([first] + words, p + 1) == |first| + 1 + StartOf(words, p)
  {
    if p > 0 { StartShifts(first, words, p - 1); }
  }

  lemma {:induction false} StartGrows(c: char, words: seq<string>, p: nat)
    requires 0 < p < |words|
    ensures StartOf([[c] + words[0]] + words[1..], p) == StartOf(words, p) + 1
  {
    var longer := [[c] + words[0]] + words[1..];
    assert longer[p - 1] == if p == 1 then [c] + words[0] else words[p - 1];
    if p > 1 { StartGrows(c, words, p - 1); }
  }

  /** A run of the rest that does not touch the first character is a run of the whole. */
  lemma RunShifts(content: string, a: nat, w: string)
    requires content != "" && IsRun(content[1..], a, w) && (a == 0 ==> !UNICODE.isAlphanumeric(content[0]))
    ensures IsRun(content, a + 1, w)
  {
    assert content[1..][a..a + |w|] == content[a + 1..a + 1 + |w|];
  }

  lemma RunGrows(content: string, w: string)
    requires content != "" && IsRun(content[1..], 0, w) && UNICODE.isAlphanumeric(content[0])
    ensures IsRun(content, 0, [content[0]] + w)
  {
    var longer := [content[0]] + w;
    assert content[0..|longer|] == [content[0]] + content[1..][0..|w|];
    assert forall i :: 0 < i < |longer| ==> longer[i] == w[i - 1];
  }

  lemma {:induction false} WordIsRun(content: string, p: nat)
    requires p < |SplitWords(content)|
    ensures IsRun(content, StartOf(SplitWords(content), p), SplitWords(content)[p])
  {
    if content == "" {
    } else {
      var rest := SplitWords(content[1..]);
      if !UNICODE.isAlphanumeric(content[0]) {
        if p > 0 {
          WordIsRun(content[1..], p - 1);
          StartShifts("", rest, p - 1);
          RunShifts(content, StartOf(rest, p - 1), rest[p - 1]);
        }
      } else if p == 0 {
        WordIsRun(content[1..], 0);
        RunGrows(content, rest[0]);
      } else {
        WordIsRun(content[1..], p);
        StartGrows(content[0], rest, p);
        StartsAscend(rest, 0, p);
        RunShifts(content, StartOf(rest, p), rest[p]);
      }
    }
  }

  lemma {:induction false} RunIsWord(content: string, a: nat, w: string) returns (p: nat)
    requires IsRun(content, a, w)
    ensures p < |SplitWords(content)| && StartOf(SplitWords(content), p) == a && SplitWords(content)[p] == w
  {
    if a == 0 {
      p := 0;
      WordIsRun(content, 0);
      RunsAreUnique(content, 0, w, SplitWords(content)[0]);
    } else {
      var rest := SplitWords(content[1..]);
      assert content[1..][a - 1..a - 1 + |w|] == content[a..a + |w|];
      var q := RunIsWord(content[1..], a - 1, w);
      if UNICODE.isAlphanumeric(content[0]) {
        p := q;
        StartGrows(content[0], rest, p);
      } else {
        p := q + 1;
        StartShifts("", rest, q);
      }
    }
  }

  // ------------------------------------------------- names

  const STOPWORDS := {"the", "and", "for", "with", "from", "that", "this", "are", "was", "were", "into", "about",
                      "para", "com", "uma", "que", "dos", "das", "por", "n\U{E3}o", "nos", "nas", "tem", "s\U{E3}o"}

  /** The run is a keyword: its lower-case form has three bytes or more, is no stopword and has a letter in it. */
  predicate Spells(w: string, name: string) {
    && name == UNICODE.toLowercase(Chunker.Trim(w)) && |Text.EncodeAll(name)| >= 3 && name !in STOPWORDS
    && exists i :: 0 <= i < |name| && UNICODE.isAlphabetic(name[i])
  }

  lemma OffersIsSpells(words: seq<string>, p: nat, name: string)
    requires p < |words|
    ensures Offers(words, p, name) <==> Spells(words[p], name)
  {
  }

  /** Rust's order on `String`, that of code points: `a` begins `b`, or is smaller where they first differ. */
  ghost predicate InByteOrder(a: string, b: string) {
    a <= b || exists k :: 0 <= k < |a| && k < |b| && a[..k] == b[..k] && a[k] < b[k]
  }

  lemma {:induction false} NameLeqIsByteOrder(a: string, b: string)
    ensures NameLeq(a, b) <==> InByteOrder(a, b)
  {
    if a != "" && b != "" && a[0] == b[0] {
      NameLeqIsByteOrder(a[1..], b[1..]);
      assert a[1..] <= b[1..] <==> a <= b;
      if k :| 0 <= k < |a[1..]| && k < |b[1..]| && a[1..][..k] == b[1..][..k] && a[1..][k] < b[1..][k] {
        assert a[..k + 1] == [a[0]] + a[1..][..k] && b[..k + 1] == [b[0]] + b[1..][..k];
      }
      if k :| 0 <= k < |a| && k < |b| && a[..k] == b[..k] && a[k] < b[k] {
        assert a[1..][..k - 1] == a[..k][1..] && b[1..][..k - 1] == b[..k][1..];
      }
    }
  }

  /** Entity `e` comes from the run `w` at `a`, and no earlier run spells its name. */
  ghost predicate ComesFrom(content: string, e: EntityCandidate, a: nat, w: string) {
    && IsRun(content, a, w) && e.displayName == Chunker.Trim(w) && Spells(w, e.normalizedName)
    && forall b: nat, v :: IsRun(content, b, v) && b < a ==> !Spells(v, e.normalizedName)
  }

  lemma FirstOfferComes(content: string, p: nat, e: EntityCandidate)
    requires FirstOffer(SplitWords(content), p, e)
    ensures ComesFrom(content, e, StartOf(SplitWords(content), p), SplitWords(content)[p])
  {
    hide SplitWords, IsRun, Spells, Offers;
    var words := SplitWords(content);
    var a := StartOf(words, p);
    WordIsRun(content, p);
    OffersIsSpells(words, p, e.normalizedName);
    forall b: nat, v | IsRun(content, b, v) && b < a
      ensures !Spells(v, e.normalizedName)
    {
      if Spells(v, e.normalizedName) {
        var q := RunIsWord(content, b, v);
        if p < q { StartsAscend(words, p, q); }
        OffersIsSpells(words, q, e.normalizedName);
      }
    }
  }

  /**
   * What the extractor promises, on the content. Its entities are the first eight distinct keywords: each
   * comes from the first maximal alphanumeric run that spells its name, in order (`at` gives the places),
   * and a keyword is missing only when eight others were met before it. Its relations join exactly the
   * pairs of them, smaller name first.
   */
  lemma ExtractionExact(content: string) returns (at: seq<nat>, runs: seq<string>)
    ensures var x := Extract(content);
      && |x.entities| <= 8 && |at| == |runs| == |x.entities|
      && DistinctNames(x.entities)
      && (forall i, j :: 0 <= i < j < |at| ==> at[i] < at[j])
      && (forall i :: 0 <= i < |at| ==> ComesFrom(content, x.entities[i], at[i], runs[i]))
      && (forall a: nat, w, name :: IsRun(content, a, w) && Spells(w, name) ==>
            name in NamesOf(x.entities) || (|at| == 8 && at[7] < a))
    ensures var x := Extract(content);
      && (forall r :: r in x.relations ==>
            && r.source in NamesOf(x.entities) && r.target in NamesOf(x.entities)
            && r.source != r.target && InByteOrder(r.source, r.target)
            && r.relation == "co_occurs_with" && r.confidence == 0.5)
      && (forall a, b :: a in NamesOf(x.entities) && b in NamesOf(x.entities) && a != b ==>
            (RelationCandidate(a, b, "co_occurs_with", 0.5) in x.relations <==> InByteOrder(a, b)))
  {
    hide NameLeq, InByteOrder, DistinctNames, Offers, SplitWords, NamesOf, PairsFrom, Entities, IsRun, Spells,
         ComesFrom, StartOf, FirstOffer;
    RelationsAreExact(content);
    forall a, b
      ensures NameLeq(a, b) <==> InByteOrder(a, b)
    {
      NameLeqIsByteOrder(a, b);
    }
    var words := SplitWords(content);
    var from := EntitiesAreFirst(content);
    OffersInRange(words, Entities(content), from);
    at := seq(|from|, i requires 0 <= i < |from| => StartOf(words, from[i]));
    runs := seq(|from|, i requires 0 <= i < |from| => words[from[i]]);
    forall i | 0 <= i < |from|
      ensures ComesFrom(content, Entities(content)[i], at[i], runs[i])
    {
      FirstOfferComes(content, from[i], Entities(content)[i]);
    }
    forall i, j | 0 <= i < j < |from|
      ensures at[i] < at[j]
    {
      StartsAscend(words, from[i], from[j]);
    }
    forall a: nat, w, name | IsRun(content, a, w) && Spells(w, name)
      ensures name in NamesOf(Entities(content)) || (|at| == 8 && at[7] < a)
    {
      var p := RunIsWord(content, a, w);
      OffersIsSpells(words, p, name);
      if name !in NamesOf(Entities(content)) { StartsAscend(words, from[7], p); }
    }
  }

  lemma OffersInRange(words: seq<string>, entities: seq<EntityCandidate>, at: seq<nat>)
    requires FirstOffers(words, entities, at)
    ensures |at| == |entities| && (forall i, j :: 0 <= i < j < |at| ==> at[i] < at[j])
    ensures forall i :: 0 <= i < |at| ==> at[i] < |words| && FirstOffer(words, at[i], entities[i])
  {
    hide CandidateOf, Offers;
  }
}
