/** How paragraphs become chunks: what a paragraph is, and which of them share a chunk. */
module ChunkerGroups {
  import opened Basics
  import opened Text
  import opened Chunker
  import opened ChunkerTheorems

  // ------------------------------------------------- paragraphs

  /** Splitting at blank lines loses nothing: the pieces, glued with blank lines, are the content. */
  lemma {:induction false} PiecesSpellContent(s: string)
    ensures Join(SplitBlankLines(s)) == s
  {
    if |s| >= 2 {
      if s[0] == '\n' && s[1] == '\n' {
        PiecesSpellContent(s[2..]);
        assert ([""] + SplitBlankLines(s[2..]))[1..] == SplitBlankLines(s[2..]);
        assert s == "\n\n" + s[2..];
      } else {
        var r := SplitBlankLines(s[1..]);
        PiecesSpellContent(s[1..]);
        GrowsFirst(s[0], r);
        assert s == [s[0]] + s[1..];
      }
    }
  }

  lemma GrowsFirst(c: char, pieces: seq<string>)
    requires pieces != []
    ensures Join([[c] + pieces[0]] + pieces[1..]) == [c] + Join(pieces)
  {
    var longer := [[c] + pieces[0]] + pieces[1..];
    assert longer[1..] == pieces[1..];
    if |pieces| > 1 {
      var rest := Join(pieces[1..]);
      assert ([c] + pieces[0]) + "\n\n" + rest == [c] + (pieces[0] + "\n\n" + rest);
    }
  }

  /** Trimming takes white space off both ends, all of it and nothing else. */
  lemma TrimIs(s: string) returns (before: string, after: string)
    ensures s == before + Trim(s) + after && IsBlank(before) && IsBlank(after)
    ensures Trim(s) != "" ==> !IsWhitespace(Trim(s)[0]) && !IsWhitespace(Trim(s)[|Trim(s)| - 1])
  {
    hide IsWhitespace, TrimStart, TrimEnd, IsBlank;
    var t := TrimStart(s);
    before := StartIsBlank(s);
    after := EndIsBlank(t);
    EndsAreVisible(s);
  }

  lemma EndsAreVisible(s: string)
    ensures Trim(s) != "" ==> !IsWhitespace(Trim(s)[0]) && !IsWhitespace(Trim(s)[|Trim(s)| - 1])
  {
    hide IsWhitespace, TrimStart, TrimEnd, IsBlank;
    TrimStartFacts(s);
    TrimEndFacts(TrimStart(s));
  }

  lemma {:induction false} StartIsBlank(s: string) returns (before: string)
    ensures s == before + TrimStart(s) && IsBlank(before)
  {
    hide IsWhitespace;
    before := "";
    if s != "" && IsWhitespace(s[0]) {
      var rest := StartIsBlank(s[1..]);
      before := [s[0]] + rest;
      assert s == [s[0]] + s[1..];
    }
  }

  lemma {:induction false} EndIsBlank(s: string) returns (after: string)
    ensures s == TrimEnd(s) + after && IsBlank(after)
  {
    hide IsWhitespace;
    after := "";
    if s != "" && IsWhitespace(s[|s| - 1]) {
      var rest := EndIsBlank(s[..|s| - 1]);
      after := rest + [s[|s| - 1]];
      assert s == s[..|s| - 1] + [s[|s| - 1]];
    }
  }

  // ------------------------------------------------- visible text

  lemma {:induction false} VisibleAppends(a: string, b: string)
    ensures Visible(a + b) == Visible(a) + Visible(b)
  {
    if a == "" {
      assert a + b == b;
    } else {
      VisibleAppends(a[1..], b);
      assert (a + b)[1..] == a[1..] + b;
    }
  }

  lemma {:induction false} BlankIsInvisible(s: string)
    requires IsBlank(s)
    ensures Visible(s) == ""
  {
    hide IsWhitespace;
    if s != "" { BlankIsInvisible(s[1..]); }
  }

  lemma TrimKeepsVisible(s: string)
    ensures Visible(Trim(s)) == Visible(s)
  {
    hide IsWhitespace, Trim, Visible;
    var before, after := TrimIs(s);
    BlankIsInvisible(before);
    BlankIsInvisible(after);
    VisibleAppends(before + Trim(s), after);
    VisibleAppends(before, Trim(s));
  }

  lemma {:induction false} TrimmedKeepVisible(pieces: seq<string>)
    ensures Visible(Concat(NonEmptyTrimmed(pieces))) == Visible(Concat(pieces))
  {
    hide Trim, Visible;
    if pieces != [] {
      var rest := NonEmptyTrimmed(pieces[1..]);
      TrimmedKeepVisible(pieces[1..]);
      TrimKeepsVisible(pieces[0]);
      VisibleAppends(pieces[0], Concat(pieces[1..]));
      VisibleAppends(Trim(pieces[0]), Concat(rest));
      if Trim(pieces[0]) == "" {
        assert NonEmptyTrimmed(pieces) == [] + rest == rest;
        NothingIsVisible();
      } else {
        assert NonEmptyTrimmed(pieces) == [Trim(pieces[0])] + rest && ([Trim(pieces[0])] + rest)[1..] == rest;
      }
    }
  }

  lemma NothingIsVisible()
    ensures Visible("") == "" && Visible("\n\n") == ""
  {
    assert "\n\n"[1..] == "\n" && "\n"[1..] == "";
  }

  lemma {:induction false} JoinKeepsVisible(pieces: seq<string>)
    ensures Visible(Join(pieces)) == Visible(Concat(pieces))
  {
    hide Visible;
    if |pieces| == 1 {
      assert Concat(pieces) == pieces[0] + Concat([]) == pieces[0];
    } else if |pieces| > 1 {
      JoinKeepsVisible(pieces[1..]);
      NothingIsVisible();
      VisibleAppends(pieces[0] + "\n\n", Join(pieces[1..]));
      VisibleAppends(pieces[0], "\n\n");
      VisibleAppends(pieces[0], Concat(pieces[1..]));
    }
  }

  lemma {:induction false} BodyKeepsVisible(chunks: seq<string>)
    ensures Visible(Body(chunks)) == Visible(Concat(chunks))
  {
    hide Visible;
    if chunks != [] {
      BodyKeepsVisible(chunks[1..]);
      PiecesSpellContent(chunks[0]);
      JoinKeepsVisible(SplitBlankLines(chunks[0]));
      VisibleAppends(DropSeparators(chunks[0]), Body(chunks[1..]));
      VisibleAppends(chunks[0], Concat(chunks[1..]));
    }
  }

  /** The chunks read one after another show the characters of the content, white space aside, in their order. */
  lemma ChunksKeepVisibleText(content: string, max: nat)
    requires max > 0 && NoCharacterIsCut(Paragraphs(content), max)
    ensures Visible(Concat(ChunkText(content, max))) == Visible(content)
  {
    hide Visible, ChunkText, NoCharacterIsCut, Body;
    ChunksPreserveText(content, max);
    BodyKeepsVisible(ChunkText(content, max));
    TrimmedKeepVisible(SplitBlankLines(content));
    PiecesSpellContent(content);
    JoinKeepsVisible(SplitBlankLines(content));
  }

  // ------------------------------------------------- which paragraphs share a chunk

  /** The chunks of one group: its paragraphs glued together, or the parts of a paragraph that does not fit. */
  function Emitted(group: seq<string>, max: nat): seq<string>
    requires max > 0
  {
    if |group| == 1 && Utf8Len(group[0]) > max then Parts(EncodeAll(group[0]), max) else [Join(group)]
  }

  function EmitAll(groups: seq<seq<string>>, max: nat): seq<string>
    requires max > 0
  {
    if groups == [] then [] else Emitted(groups[0], max) + EmitAll(groups[1..], max)
  }

  /** Paragraphs share a chunk as long as they fit, and a new group starts only where the next one would not. */
  ghost predicate GroupedGreedily(groups: seq<seq<string>>, max: nat) {
    && (forall i :: 0 <= i < |groups| ==> groups[i] != [] && (|groups[i]| > 1 ==> Utf8Len(Join(groups[i])) <= max))
    && (forall i :: 0 <= i < |groups| - 1 ==> Overflows(groups[i], groups[i + 1], max))
  }

  predicate Overflows(group: seq<string>, next: seq<string>, max: nat) {
    next != [] && Utf8Len(Join(group)) + 2 + Utf8Len(next[0]) > max
  }

  lemma Prepended(group: seq<string>, rest: seq<seq<string>>, max: nat)
    requires max > 0 && group != [] && (|group| > 1 ==> Utf8Len(Join(group)) <= max) && GroupedGreedily(rest, max)
    requires rest != [] ==> Overflows(group, rest[0], max)
    ensures GroupedGreedily([group] + rest, max)
    ensures EmitAll([group] + rest, max) == Emitted(group, max) + EmitAll(rest, max)
    ensures Concat([group] + rest) == group + Concat(rest)
  {
    hide Utf8Len, Join, Overflows, Emitted;
    var groups := [group] + rest;
    assert groups[1..] == rest;
    forall i | 0 <= i < |groups| - 1
      ensures Overflows(groups[i], groups[i + 1], max)
    {
      if i > 0 { assert Overflows(rest[i - 1], rest[i - 1 + 1], max); }
    }
  }

  lemma NotEmptyJoin(group: seq<string>)
    requires "" !in group
    ensures Join(group) == "" <==> group == []
  {
    if |group| == 1 { assert group[0] in group; }
  }

  lemma SmallGroup(group: seq<string>, max: nat)
    requires max > 0 && group != [] && Utf8Len(Join(group)) <= max
    ensures Emitted(group, max) == [Join(group)]
  {
  }

  lemma JoinFits(group: seq<string>, p: string, max: nat)
    requires group != [] && Utf8Len(Join(group)) + Utf8Len(p) + 2 <= max
    ensures Join(group + [p]) == Join(group) + "\n\n" + p && Utf8Len(Join(group + [p])) <= max
  {
    hide EncodeAll;
    JoinOneMore(group, p);
    LengthOfJoined(Join(group), p);
  }

  /** A group that is full before `p`, in front of the groups that start with `p`. */
  lemma FullBefore(group: seq<string>, p: string, rest: seq<seq<string>>, max: nat)
    requires max > 0 && group != [] && Utf8Len(Join(group)) <= max && Utf8Len(Join(group)) + Utf8Len(p) + 2 > max
    requires GroupedGreedily(rest, max) && rest != [] && rest[0] != [] && rest[0][0] == p
    ensures GroupedGreedily([group] + rest, max) && Concat([group] + rest) == group + Concat(rest)
    ensures EmitAll([group] + rest, max) == [Join(group)] + EmitAll(rest, max)
  {
    hide Utf8Len, Join;
    SmallGroup(group, max);
    Prepended(group, rest, max);
  }

  /** A paragraph that does not fit, in front of the groups that follow. */
  lemma LargeBefore(p: string, rest: seq<seq<string>>, max: nat)
    requires max > 0 && Utf8Len(p) > max && GroupedGreedily(rest, max)
    ensures GroupedGreedily([[p]] + rest, max) && Concat([[p]] + rest) == [p] + Concat(rest)
    ensures EmitAll([[p]] + rest, max) == Parts(EncodeAll(p), max) + EmitAll(rest, max)
  {
    hide EncodeAll;
    JoinOfFew(p);
    if rest != [] { assert rest[0] != []; }
    Prepended([p], rest, max);
  }

  lemma LastGroup(group: seq<string>, max: nat)
    requires max > 0 && group != [] && Utf8Len(Join(group)) <= max
    ensures GroupedGreedily([group], max) && Concat([group]) == group && EmitAll([group], max) == [Join(group)]
  {
    hide Join;
    SmallGroup(group, max);
    ConcatFew(group);
    assert [group][1..] == [];
  }

  lemma {:induction false} GroupsFrom(ps: seq<string>, group: seq<string>, max: nat) returns (groups: seq<seq<string>>)
    requires max > 0 && "" !in ps && "" !in group && (group != [] ==> Utf8Len(Join(group)) <= max)
    ensures ChunksFrom(ps, Join(group), max) == EmitAll(groups, max)
    ensures Concat(groups) == group + ps && GroupedGreedily(groups, max)
    ensures groups == [] <==> group + ps == []
    ensures groups != [] ==> groups[0] != [] && groups[0][0] == (group + ps)[0]
    decreases |ps|
  {
    hide EncodeAll, Utf8Len, Parts, Join, ChunksFrom, GroupedGreedily, Emitted, Overflows, Concat, EmitAll;
    NotEmptyJoin(group);
    if ps == [] {
      groups := if group == [] then [] else [group];
      ChunksFromEnds("", Join(group), max);
      if group == [] { NoGroups(max); } else { LastGroup(group, max); }
    } else {
      var p := ps[0];
      assert ps == [p] + ps[1..] && p in ps;
      ChunksFromStep(p, ps[1..], Join(group), max);
      JoinOfFew(p);
      NotEmptyJoin([p]);
      if Utf8Len(p) > max {
        var rest := GroupsFrom(ps[1..], [], max);
        LargeBefore(p, rest, max);
        groups := [[p]] + rest;
        if group != [] {
          FullBefore(group, p, groups, max);
          groups := [group] + groups;
        }
        assert [p] + ([] + ps[1..]) == ps;
      } else if group != [] && Utf8Len(Join(group)) + Utf8Len(p) + 2 > max {
        var rest := GroupsFrom(ps[1..], [p], max);
        FullBefore(group, p, rest, max);
        groups := [group] + rest;
      } else {
        if group != [] { JoinFits(group, p, max); } else { assert group + [p] == [p]; }
        groups := GroupsFrom(ps[1..], group + [p], max);
        assert (group + [p]) + ps[1..] == group + ps;
      }
    }
  }

  lemma NoGroups(max: nat)
    requires max > 0
    ensures GroupedGreedily([], max) && EmitAll([], max) == [] && Concat<string>([]) == []
  {
  }

  /**
   * What the chunker does with paragraphs, exactly: neighbours share a chunk as long as they fit together, and
   * a paragraph that does not fit on its own is cut into parts of its own.
   */
  lemma ChunksAreGroups(content: string, max: nat) returns (groups: seq<seq<string>>)
    requires max > 0
    ensures Concat(groups) == Paragraphs(content) && GroupedGreedily(groups, max)
    ensures ChunkText(content, max) == EmitAll(groups, max)
  {
    hide EncodeAll, Utf8Len, Parts, Join, ChunksFrom, GroupedGreedily, Emitted, Concat, EmitAll, Paragraphs;
    ParagraphsAreProper(content);
    JoinOfFew("");
    groups := GroupsFrom(Paragraphs(content), [], max);
    assert [] + Paragraphs(content) == Paragraphs(content);
  }
}
