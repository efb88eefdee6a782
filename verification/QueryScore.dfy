/** What a query makes of a memory: counted term occurrences, and a bonus for sources that retrieval ranks. */
module QueryScore {
  import opened Basics
  import opened Chunker
  import opened Extractor
  import opened GovernanceTypes

  const SOURCE_BONUS := 10_000

  /** The terms of a query, and the best rank, from one, of each source among the retrieved chunks. */
  datatype Ask = Ask(terms: seq<string>, ranks: map<string, nat>)

  // ------------------------------------------------- terms

  predicate NoneEmpty(words: seq<string>) {
    forall i :: 0 <= i < |words| ==> words[i] != ""
  }

  /** `str::split_whitespace`: the maximal runs of other characters. */
  function SplitWhitespace(s: string): (words: seq<string>)
    ensures s != "" && !IsWhitespace(s[0]) ==> words != []
    ensures NoneEmpty(words)
  {
    if s == "" then []
    else if IsWhitespace(s[0]) then SplitWhitespace(s[1..])
    else
      var rest := SplitWhitespace(s[1..]);
      if |s| == 1 || IsWhitespace(s[1]) then [[s[0]]] + rest
      else [[s[0]] + rest[0]] + rest[1..]
  }

  function Terms(query: string): seq<string> {
    SplitWhitespace(UNICODE.toLowercase(query))
  }

  function Spelled(words: seq<string>): string {
    if words == [] then "" else words[0] + Spelled(words[1..])
  }

  predicate IsWord(w: string) {
    w != "" && forall c :: c in w ==> !IsWhitespace(c)
  }

  /** The terms spell the query without its white space, and there are none exactly when it is blank. */
  lemma {:induction false} TermsSpellQuery(s: string)
    ensures Spelled(SplitWhitespace(s)) == Visible(s)
    ensures SplitWhitespace(s) == [] <==> IsBlank(s)
    ensures forall w :: w in SplitWhitespace(s) ==> IsWord(w)
  {
    if s != "" {
      var rest := SplitWhitespace(s[1..]);
      TermsSpellQuery(s[1..]);
      assert s == [s[0]] + s[1..];
      if !IsWhitespace(s[0]) {
        if |s| == 1 || IsWhitespace(s[1]) {
          assert ([[s[0]]] + rest)[1..] == rest;
        } else {
          var first := [s[0]] + rest[0];
          assert ([first] + rest[1..])[1..] == rest[1..];
          assert rest[0] in rest && IsWord(first);
          assert [s[0]] + (rest[0] + Spelled(rest[1..])) == first + Spelled(rest[1..]);
        }
      }
    }
  }

  // ------------------------------------------------- occurrences

  /** `str::matches(term).count()`: leftmost, non-overlapping. */
  function Occurrences(text: string, term: string): nat
    decreases |text|
  {
    if term == "" then |text| + 1
    else if |text| < |term| then 0
    else if term <= text then 1 + Occurrences(text[|term|..], term)
    else Occurrences(text[1..], term)
  }

  /** `term` occurs at each of the positions `at`, and no two of these occurrences overlap. */
  ghost predicate OccursApart(text: string, term: string, at: seq<nat>) {
    && (forall i :: 0 <= i < |at| ==> at[i] + |term| <= |text| && text[at[i]..at[i] + |term|] == term)
    && (forall i, j :: 0 <= i < j < |at| ==> at[i] + |term| <= at[j])
  }

  function Shifted(at: seq<nat>, step: nat): (r: seq<nat>)
    requires forall i :: 0 <= i < |at| ==> at[i] >= step
    ensures |r| == |at| && forall i :: 0 <= i < |at| ==> r[i] == at[i] - step
  {
    seq(|at|, i requires 0 <= i < |at| => at[i] - step)
  }

  /** Counting from the left finds as many occurrences as any choice of disjoint ones. */
  lemma {:induction false} CountIsMost(text: string, term: string, at: seq<nat>)
    requires term != "" && OccursApart(text, term, at)
    ensures |at| <= Occurrences(text, term)
    decreases |text|
  {
    if at != [] {
      assert at[0] + |term| <= |text|;
      if term <= text {
        AfterFirst(text, term, at);
        CountIsMost(text[|term|..], term, Shifted(at[1..], |term|));
      } else {
        NotFirst(text, term, at);
        CountIsMost(text[1..], term, Shifted(at, 1));
      }
    }
  }

  lemma AfterFirst(text: string, term: string, at: seq<nat>)
    requires term != "" && at != [] && OccursApart(text, term, at) && |term| <= |text|
    ensures forall i :: 0 <= i < |at[1..]| ==> at[1..][i] >= |term|
    ensures OccursApart(text[|term|..], term, Shifted(at[1..], |term|))
  {
    forall i | 0 <= i < |at[1..]|
      ensures at[1..][i] >= |term|
      ensures at[1..][i] + |term| <= |text|
      ensures text[|term|..][at[1..][i] - |term|..at[1..][i]] == term
    {
      assert at[0] + |term| <= at[i + 1];
      assert text[|term|..][at[i + 1] - |term|..at[i + 1]] == text[at[i + 1]..at[i + 1] + |term|];
    }
  }

  lemma NotAtStart(text: string, term: string, k: nat)
    requires !(term <= text) && k + |term| <= |text| && text[k..k + |term|] == term
    ensures k >= 1
  {
    assert text[0..|term|] == text[..|term|];
  }

  lemma NotFirst(text: string, term: string, at: seq<nat>)
    requires term != "" && at != [] && OccursApart(text, term, at) && !(term <= text)
    ensures forall i :: 0 <= i < |at| ==> at[i] >= 1
    ensures text != "" && OccursApart(text[1..], term, Shifted(at, 1))
  {
    assert text != "" by { assert at[0] + |term| <= |text|; }
    forall i | 0 <= i < |at|
      ensures at[i] >= 1
    {
      NotAtStart(text, term, at[i]);
    }
    forall i | 0 <= i < |at|
      ensures text[1..][at[i] - 1..at[i] - 1 + |term|] == term
    {
      assert text[1..][at[i] - 1..at[i] - 1 + |term|] == text[at[i]..at[i] + |term|];
    }
  }

  function Moved(at: seq<nat>, step: nat): (r: seq<nat>)
    ensures |r| == |at| && forall i :: 0 <= i < |at| ==> r[i] == at[i] + step
  {
    seq(|at|, i requires 0 <= i < |at| => at[i] + step)
  }

  lemma {:induction false} CountIsAttained(text: string, term: string) returns (at: seq<nat>)
    requires term != ""
    ensures OccursApart(text, term, at) && |at| == Occurrences(text, term)
    decreases |text|
  {
    hide OccursApart;
    if |text| < |term| {
      NoOccurrence(text, term);
      at := [];
    } else if term <= text {
      var rest := CountIsAttained(text[|term|..], term);
      at := [0] + Moved(rest, |term|);
      FirstAndMoved(text, term, rest);
    } else {
      var rest := CountIsAttained(text[1..], term);
      at := Moved(rest, 1);
      MovedOccurs(text, term, rest, 1);
    }
  }

  lemma NoOccurrence(text: string, term: string)
    ensures OccursApart(text, term, [])
  {
  }

  lemma FirstAndMoved(text: string, term: string, rest: seq<nat>)
    requires term <= text && OccursApart(text[|term|..], term, rest)
    ensures OccursApart(text, term, [0] + Moved(rest, |term|))
  {
    MovedOccurs(text, term, rest, |term|);
  }

  lemma SliceOfRest(text: string, step: nat, k: nat, n: nat)
    requires step + k + n <= |text|
    ensures text[step..][k..k + n] == text[k + step..k + step + n]
  {
  }

  lemma MovedOccurs(text: string, term: string, at: seq<nat>, step: nat)
    requires step <= |text| && OccursApart(text[step..], term, at)
    ensures OccursApart(text, term, Moved(at, step))
  {
    forall i | 0 <= i < |at|
      ensures text[at[i] + step..at[i] + step + |term|] == term
    {
      SliceOfRest(text, step, at[i], |term|);
    }
  }

  // ------------------------------------------------- the score

  function LexicalScore(text: string, terms: seq<string>): nat {
    if terms == [] then 0
    else LexicalScore(text, terms[..|terms| - 1]) + Occurrences(text, terms[|terms| - 1])
  }

  /** A local memory whose source was retrieved gains more than ten thousand minus its rank, never less than zero. */
  function Bonus(ask: Ask, m: Memory, workspace: string): nat {
    if m.scope.workspace != workspace || m.source.None? || m.source.value !in ask.ranks then 0
    else if ask.ranks[m.source.value] >= SOURCE_BONUS then 0
    else SOURCE_BONUS - ask.ranks[m.source.value]
  }

  function Score(ask: Ask, m: Memory, workspace: string): nat {
    LexicalScore(UNICODE.toLowercase(m.content), ask.terms) + Bonus(ask, m, workspace)
  }

  ghost predicate Mentions(text: string, term: string) {
    exists k: nat :: OccursApart(text, term, [k])
  }

  lemma {:induction false} ScoresIff(text: string, terms: seq<string>)
    requires NoneEmpty(terms)
    ensures LexicalScore(text, terms) > 0 <==> exists t :: t in terms && Mentions(text, t)
  {
    if terms != [] {
      var n := |terms| - 1;
      ScoresIff(text, terms[..n]);
      assert terms == terms[..n] + [terms[n]];
      MentionsIff(text, terms[n]);
    }
  }

  lemma MentionsIff(text: string, term: string)
    requires term != ""
    ensures Occurrences(text, term) > 0 <==> Mentions(text, term)
  {
    if Occurrences(text, term) > 0 {
      var at := CountIsAttained(text, term);
      assert OccursApart(text, term, [at[0]]);
    } else if Mentions(text, term) {
      var k: nat :| OccursApart(text, term, [k]);
      CountIsMost(text, term, [k]);
    }
  }

  predicate HasRankedSource(ask: Ask, m: Memory, workspace: string) {
    m.scope.workspace == workspace && m.source.Some? && m.source.value in ask.ranks
  }

  /** Among fifty retrieved chunks, a memory scores exactly when it mentions a term or its source was retrieved. */
  lemma ScoredIffRelevant(ask: Ask, sources: seq<Option<string>>, m: Memory, workspace: string)
    requires NoneEmpty(ask.terms) && IsRankTable(sources, ask.ranks) && |sources| < SOURCE_BONUS
    ensures Score(ask, m, workspace) > 0 <==>
              (exists t :: t in ask.terms && Mentions(UNICODE.toLowercase(m.content), t))
              || HasRankedSource(ask, m, workspace)
  {
    ScoresIff(UNICODE.toLowercase(m.content), ask.terms);
    if HasRankedSource(ask, m, workspace) { assert FirstAt(sources, m.source.value, ask.ranks[m.source.value]); }
  }

  method ScoreMemory(ask: Ask, m: Memory, workspace: string) returns (score: nat)
    ensures score == Score(ask, m, workspace)
  {
    var lexical := 0;
    for i := 0 to |ask.terms|
      invariant lexical == LexicalScore(UNICODE.toLowercase(m.content), ask.terms[..i])
    {
      assert ask.terms[..i + 1][..i] == ask.terms[..i];
      lexical := lexical + Occurrences(UNICODE.toLowercase(m.content), ask.terms[i]);
    }
    assert ask.terms[..|ask.terms|] == ask.terms;
    return lexical + Bonus(ask, m, workspace);
  }

  // ------------------------------------------------- ranked sources

  /** `source` is first met at rank `rank`, counted from one. */
  ghost predicate FirstAt(sources: seq<Option<string>>, source: string, rank: nat) {
    1 <= rank <= |sources| && sources[rank - 1] == Some(source) && Some(source) !in sources[..rank - 1]
  }

  ghost predicate IsRankTable(sources: seq<Option<string>>, ranks: map<string, nat>) {
    && (forall s :: s in ranks <==> Some(s) in sources)
    && (forall s :: s in ranks ==> FirstAt(sources, s, ranks[s]))
  }

  /** The fold that keeps the least rank of each source. */
  method SourceRanks(sources: seq<Option<string>>) returns (ranks: map<string, nat>)
    ensures IsRankTable(sources, ranks)
  {
    hide FirstAt;
    ranks := map[];
    for i := 0 to |sources|
      invariant IsRankTable(sources[..i], ranks)
    {
      OneMoreSource(sources, i, ranks);
      if sources[i].Some? {
        var source := sources[i].value;
        var rank := i + 1;
        if source in ranks && ranks[source] < rank { rank := ranks[source]; }
        ranks := ranks[source := rank];
      }
    }
    assert sources[..|sources|] == sources;
  }

  lemma OneMoreSource(sources: seq<Option<string>>, i: nat, ranks: map<string, nat>)
    requires i < |sources| && IsRankTable(sources[..i], ranks)
    ensures forall s :: s in ranks ==> ranks[s] <= i && FirstAt(sources[..i + 1], s, ranks[s])
    ensures forall s :: Some(s) in sources[..i + 1] <==> s in ranks || sources[i] == Some(s)
    ensures sources[i].Some? && sources[i].value !in ranks ==> FirstAt(sources[..i + 1], sources[i].value, i + 1)
  {
    assert sources[..i + 1] == sources[..i] + [sources[i]];
    forall s | s in ranks
      ensures ranks[s] <= i && FirstAt(sources[..i + 1], s, ranks[s])
    {
      assert FirstAt(sources[..i], s, ranks[s]);
      assert sources[..i + 1][..ranks[s] - 1] == sources[..i][..ranks[s] - 1];
    }
    assert sources[..i + 1][..i] == sources[..i];
  }

  lemma FirstIsUnique(sources: seq<Option<string>>, source: string, i: nat, j: nat)
    requires FirstAt(sources, source, i) && FirstAt(sources, source, j)
    ensures i == j
  {
  }

  /** The points of a memory: its mentions, and for a ranked local source ten thousand less the rank. */
  lemma ScoreIsExact(ask: Ask, sources: seq<Option<string>>, m: Memory, workspace: string)
    requires IsRankTable(sources, ask.ranks) && |sources| <= 50
    ensures var mentions := LexicalScore(UNICODE.toLowercase(m.content), ask.terms);
      && (m.source.None? || m.scope.workspace != workspace || m.source !in sources ==>
            Score(ask, m, workspace) == mentions)
      && (forall rank :: m.source.Some? && m.scope.workspace == workspace && FirstAt(sources, m.source.value, rank) ==>
            Score(ask, m, workspace) == mentions + 10_000 - rank)
  {
    hide LexicalScore, FirstAt;
    forall rank | m.source.Some? && m.scope.workspace == workspace && FirstAt(sources, m.source.value, rank)
      ensures Score(ask, m, workspace)
           == LexicalScore(UNICODE.toLowercase(m.content), ask.terms) + 10_000 - rank
    {
      FirstIsMet(sources, m.source.value, rank);
      FirstIsUnique(sources, m.source.value, rank, ask.ranks[m.source.value]);
    }
  }

  lemma FirstIsMet(sources: seq<Option<string>>, source: string, rank: nat)
    requires FirstAt(sources, source, rank)
    ensures Some(source) in sources && rank <= |sources|
  {
  }

  /** Each term adds the greatest number of its occurrences that do not overlap. */
  lemma MentionsAddUp(text: string, terms: seq<string>, term: string) returns (at: seq<nat>)
    requires term != ""
    ensures OccursApart(text, term, at) && forall other :: OccursApart(text, term, other) ==> |other| <= |at|
    ensures LexicalScore(text, []) == 0 && LexicalScore(text, terms + [term]) == LexicalScore(text, terms) + |at|
  {
    hide OccursApart;
    at := CountIsAttained(text, term);
    forall other | OccursApart(text, term, other)
      ensures |other| <= |at|
    {
      CountIsMost(text, term, other);
    }
    assert (terms + [term])[..|terms|] == terms;
  }
}
