/** What `chunk_text` promises: bounded chunks, none lost, and exactly when no character changes. */
module ChunkerTheorems {
  import opened Basics
  import opened Text
  import opened Chunker

  // ------------------------------------------------------ paragraphs

  lemma {:induction false} TrimStartFacts(s: string)
    ensures |TrimStart(s)| <= |s| && TrimStart(s) == s[|s| - |TrimStart(s)|..]
    ensures TrimStart(s) == "" <==> IsBlank(s)
    ensures TrimStart(s) != "" ==> !IsWhitespace(TrimStart(s)[0])
  {
    if s != "" && IsWhitespace(s[0]) {
      TrimStartFacts(s[1..]);
      assert s == [s[0]] + s[1..];
    }
  }

  lemma {:induction false} TrimEndFacts(s: string)
    ensures TrimEnd(s) <= s
    ensures TrimEnd(s) == "" <==> IsBlank(s)
    ensures TrimEnd(s) != "" ==> !IsWhitespace(TrimEnd(s)[|TrimEnd(s)| - 1])
  {
    if s != "" && IsWhitespace(s[|s| - 1]) {
      TrimEndFacts(s[..|s| - 1]);
      assert s == s[..|s| - 1] + [s[|s| - 1]];
    }
  }

  lemma TrimmedIsParagraph(s: string)
    requires NoBlankLine(s)
    ensures Trim(s) == "" <==> IsBlank(s)
    ensures Trim(s) != "" ==> IsParagraph(Trim(s))
  {
    assert IsWhitespace('\n');
    hide IsWhitespace, TrimStart, TrimEnd, IsBlank, NoBlankLine;
    var t := TrimStart(s);
    var u := TrimEnd(t);
    TrimStartFacts(s);
    TrimEndFacts(t);
    VisibleIsNotBlank(t);
    var n := |s| - |t|;
    assert u == s[n..n + |u|];
    SliceHasNoBlankLine(s, n, n + |u|);
  }

  lemma VisibleIsNotBlank(t: string)
    requires t != "" ==> !IsWhitespace(t[0])
    ensures IsBlank(t) <==> t == ""
  {
    hide IsWhitespace;
    if t != "" { assert t[0] in t; }
  }

  lemma SliceHasNoBlankLine(s: string, a: nat, b: nat)
    requires NoBlankLine(s) && a <= b <= |s|
    ensures NoBlankLine(s[a..b])
  {
    forall i | 0 <= i < b - a - 1
      ensures s[a..b][i] != '\n' || s[a..b][i + 1] != '\n'
    {
      assert s[a + i] != '\n' || s[a + i + 1] != '\n';
    }
  }

  lemma {:induction false} PiecesHaveNoSeparator(s: string)
    ensures forall p :: p in SplitBlankLines(s) ==> NoBlankLine(p)
    ensures IsBlank(s) <==> forall p :: p in SplitBlankLines(s) ==> IsBlank(p)
  {
    if |s| >= 2 {
      var r := SplitBlankLines(s);
      if s[0] == '\n' && s[1] == '\n' {
        PiecesHaveNoSeparator(s[2..]);
        assert s == "\n\n" + s[2..];
        assert forall p :: p in r <==> p == "" || p in SplitBlankLines(s[2..]);
      } else {
        var r' := SplitBlankLines(s[1..]);
        PiecesHaveNoSeparator(s[1..]);
        assert s == [s[0]] + s[1..];
        assert r[0] == [s[0]] + r'[0] && r[1..] == r'[1..];
        assert r'[0] in r' && r[0] in r;
        assert forall p :: p in r <==> p == r[0] || p in r'[1..];
        assert forall p :: p in r' <==> p == r'[0] || p in r'[1..];
      }
    }
  }

  lemma {:induction false} TrimmedPieces(pieces: seq<string>)
    requires forall p :: p in pieces ==> NoBlankLine(p)
    ensures forall p :: p in NonEmptyTrimmed(pieces) ==> IsParagraph(p)
    ensures NonEmptyTrimmed(pieces) == [] <==> forall p :: p in pieces ==> IsBlank(p)
  {
    if pieces != [] {
      TrimmedIsParagraph(pieces[0]);
      TrimmedPieces(pieces[1..]);
      assert pieces == [pieces[0]] + pieces[1..];
    }
  }

  lemma ParagraphsAreProper(content: string)
    ensures forall p :: p in Paragraphs(content) ==> IsParagraph(p)
    ensures Paragraphs(content) == [] <==> IsBlank(content)
  {
    PiecesHaveNoSeparator(content);
    TrimmedPieces(SplitBlankLines(content));
  }

  // ------------------------------------------------- bounds on chunks

  lemma {:induction false} PartsBounded(bytes: seq<Byte>, max: nat)
    requires max > 0
    ensures forall c :: c in Parts(bytes, max) ==> |c| <= max
    ensures bytes != [] ==> Parts(bytes, max) != []
  {
    hide DecodeOne, Advance;
    if |bytes| > max {
      PartsBounded(bytes[max..], max);
    }
  }

  lemma {:induction false} ChunksFromBounded(ps: seq<string>, current: string, max: nat)
    requires max > 0 && Utf8Len(current) <= max
    requires "" !in ps
    ensures forall c :: c in ChunksFrom(ps, current, max) ==> |c| <= max
    ensures ChunksFrom(ps, current, max) == [] <==> ps == [] && current == ""
    decreases |ps|
  {
    hide Encode;
    LengthInBytes(current);
    if ps != [] {
      var p := ps[0];
      var full := current != "" && Utf8Len(current) + Utf8Len(p) + 2 > max;
      var open := if full then "" else current;
      if Utf8Len(p) > max {
        PartsBounded(EncodeAll(p), max);
        ChunksFromBounded(ps[1..], open, max);
      } else {
        LengthOfJoined(open, p);
        ChunksFromBounded(ps[1..], if open == "" then p else open + "\n\n" + p, max);
      }
    }
  }

  lemma LengthOfJoined(a: string, b: string)
    ensures Utf8Len(a + "\n\n" + b) == Utf8Len(a) + 2 + Utf8Len(b)
  {
    EncodeAllAppends(a, "\n\n");
    EncodeAllAppends(a + "\n\n", b);
    assert "\n\n"[1..] == "\n" && "\n"[1..] == "";
    assert EncodeAll("\n\n") == Encode('\n') + EncodeAll("\n");
    assert EncodeAll("\n") == Encode('\n') + EncodeAll("");
  }

  /** Every chunk fits, and text is never silently dropped whole. */
  lemma ChunksFitAndExist(content: string, max: nat)
    requires max > 0
    ensures forall c :: c in ChunkText(content, max) ==> |c| <= max
    ensures ChunkText(content, max) == [] <==> IsBlank(content)
  {
    ParagraphsAreProper(content);
    ChunksFromBounded(Paragraphs(content), "", max);
  }

  // ------------------------------------------------ nothing is changed

  /** Removing every separator from a chunk. */
  function DropSeparators(chunk: string): string {
    Concat(SplitBlankLines(chunk))
  }

  function Body(chunks: seq<string>): string {
    if chunks == [] then "" else DropSeparators(chunks[0]) + Body(chunks[1..])
  }

  /** The byte cuts at `j + max`, `j + 2 max`, ... all fall between two characters of `p`. */
  predicate CutsAligned(p: string, j: nat, max: nat)
    requires max > 0
    decreases Utf8Len(p) - j
  {
    j + max < Utf8Len(p) ==> IsBoundary(p, j + max) && CutsAligned(p, j + max, max)
  }

  /** What a caller can check beforehand: no byte cut falls inside a character. */
  predicate NoCharacterIsCut(ps: seq<string>, max: nat)
    requires max > 0
  {
    forall p :: p in ps && Utf8Len(p) > max ==> CutsAligned(p, 0, max)
  }

  /** A paragraph as it comes out of the chunker. */
  function RenderOne(p: string, max: nat): string
    requires max > 0
  {
    if Utf8Len(p) > max then Concat(Parts(EncodeAll(p), max)) else p
  }

  function Render(ps: seq<string>, max: nat): string
    requires max > 0
  {
    if ps == [] then "" else RenderOne(ps[0], max) + Render(ps[1..], max)
  }

  lemma {:induction false} BodyAppends(a: seq<string>, b: seq<string>)
    ensures Body(a + b) == Body(a) + Body(b)
  {
    hide DropSeparators;
    if a == [] {
      assert a + b == b;
    } else {
      BodyAppends(a[1..], b);
      assert (a + b)[1..] == a[1..] + b;
      Associative(DropSeparators(a[0]), Body(a[1..]), Body(b));
    }
  }

  lemma TailHasNoBlankLine(p: string)
    requires p != "" && NoBlankLine(p)
    ensures NoBlankLine(p[1..])
  {
    var t := p[1..];
    forall i | 0 <= i < |t| - 1
      ensures t[i] != '\n' || t[i + 1] != '\n'
    {
      assert t[i] == p[i + 1] && t[i + 1] == p[(i + 1) + 1];
    }
  }

  lemma {:induction false} SplitWhole(p: string)
    requires NoBlankLine(p)
    ensures SplitBlankLines(p) == [p]
  {
    if |p| >= 2 {
      assert p[0] != '\n' || p[0 + 1] != '\n';
      TailHasNoBlankLine(p);
      SplitWhole(p[1..]);
      assert p == [p[0]] + p[1..];
    }
  }

  lemma {:induction false} SplitAtSeparator(p: string, rest: string)
    requires p == "" || (p[|p| - 1] != '\n' && NoBlankLine(p))
    ensures SplitBlankLines(p + "\n\n" + rest) == [p] + SplitBlankLines(rest)
  {
    var s := p + "\n\n" + rest;
    if p == "" {
      assert s[2..] == rest;
    } else {
      var t := p[1..];
      assert s[1..] == t + "\n\n" + rest;
      if |p| > 1 {
        assert p[0] != '\n' || p[0 + 1] != '\n';
        TailHasNoBlankLine(p);
        assert s[0] == p[0] && s[1] == p[1];
      }
      SplitAtSeparator(t, rest);
      assert p == [p[0]] + t;
      assert ([t] + SplitBlankLines(rest))[1..] == SplitBlankLines(rest);
    }
  }

  /** Paragraphs glued back together with the separator. */
  function Join(group: seq<string>): string {
    if group == [] then ""
    else if |group| == 1 then group[0]
    else group[0] + "\n\n" + Join(group[1..])
  }

  lemma {:induction false} JoinDropsBack(group: seq<string>)
    requires group != [] && forall p :: p in group ==> IsParagraph(p)
    ensures Join(group) != ""
    ensures DropSeparators(Join(group)) == Concat(group)
  {
    assert IsParagraph(group[0]);
    if |group| == 1 {
      SplitWhole(group[0]);
      assert group == [group[0]];
    } else {
      var rest := Join(group[1..]);
      SplitAtSeparator(group[0], rest);
      JoinDropsBack(group[1..]);
      assert ([group[0]] + SplitBlankLines(rest))[1..] == SplitBlankLines(rest);
    }
  }

  lemma {:induction false} JoinOneMore(group: seq<string>, p: string)
    requires group != []
    ensures Join(group + [p]) == Join(group) + "\n\n" + p
  {
    if |group| == 1 {
      assert (group + [p])[1..] == [p];
    } else {
      JoinOneMore(group[1..], p);
      assert (group + [p])[1..] == group[1..] + [p];
    }
  }

  // Parts of an oversized paragraph contain no separator of their own.

  lemma DecodedSliceHasNoSeparator(p: string, j: nat, e: nat)
    requires NoBlankLine(p) && j <= e <= Utf8Len(p)
    ensures NoBlankLine(DecodeLossy(EncodeAll(p)[j..e]))
  {
    hide Encode, DecodeLossy, EncodeAll, CharAt, Lead;
    if e <= j + Lead(p, j) {
      SliceInsideCharacter(p, j, e);
    } else {
      SliceAcrossCharacters(p, j, e);
    }
  }

  /** The decoded text of `bytes[j..]`, chunked: a mark per cut byte, and the characters from there. */
  lemma {:induction false} PartsFrom(p: string, j: nat, max: nat)
    requires max > 0 && j <= Utf8Len(p) && NoBlankLine(p)
    ensures var parts := Parts(EncodeAll(p)[j..], max);
      && (forall c :: c in parts ==> NoBlankLine(c))
      && |Concat(parts)| >= Lead(p, j) + |p| - CharAt(p, j)
      && (Lead(p, j) == 0 ==>
            && (|Concat(parts)| == |p| - CharAt(p, j) <==> CutsAligned(p, j, max))
            && (CutsAligned(p, j, max) ==> Concat(parts) == p[CharAt(p, j)..]))
    decreases Utf8Len(p) - j
  {
    hide Encode, DecodeLossy, EncodeAll, CharAt, Lead;
    var bytes := EncodeAll(p)[j..];
    var parts := Parts(bytes, max);
    var e := if |bytes| <= max then Utf8Len(p) else j + max;
    DecodedSliceHasNoSeparator(p, j, e);
    EndOfText(p);
    if bytes == [] {
    } else {
      var head := DecodeLossy(EncodeAll(p)[j..e]);
      if e <= j + Lead(p, j) { SliceInsideCharacter(p, j, e); } else { SliceAcrossCharacters(p, j, e); }
      if |bytes| <= max {
        assert EncodeAll(p)[j..e] == bytes && parts == [head];
        assert Concat(parts) == head;
      } else {
        assert bytes[..max] == EncodeAll(p)[j..e] && bytes[max..] == EncodeAll(p)[e..];
        PartsFrom(p, e, max);
        var rest := Parts(EncodeAll(p)[e..], max);
        assert parts == [head] + rest && parts[1..] == rest;
        assert Concat(parts) == head + Concat(rest);
      }
    }
  }

  lemma EndOfText(p: string)
    ensures CharAt(p, Utf8Len(p)) == |p| && Lead(p, Utf8Len(p)) == 0
    ensures CharAt(p, 0) == 0 && Lead(p, 0) == 0
  {
    hide Encode;
    assert p[..0] == "" && p[|p|..] == "" && p[..|p|] == p;
    CharAtShifts(p, |p|, 0);
  }

  lemma NothingToDrop(c: string)
    requires NoBlankLine(c)
    ensures DropSeparators(c) == c
  {
    SplitWhole(c);
    assert Concat([c]) == c + Concat([c][1..]);
  }

  lemma {:induction false} BodyOfParts(parts: seq<string>)
    requires forall c :: c in parts ==> NoBlankLine(c)
    ensures Body(parts) == Concat(parts)
  {
    hide DropSeparators, NoBlankLine;
    if parts != [] {
      NothingToDrop(parts[0]);
      BodyOfParts(parts[1..]);
    }
  }

  lemma FlushKeepsBody(group: seq<string>, full: bool)
    requires forall p :: p in group ==> IsParagraph(p)
    requires full ==> Join(group) != ""
    ensures Body(Flushed(Join(group), full)) + Concat(if full then [] else group) == Concat(group)
    ensures Join(group) == "" <==> group == []
  {
    hide DropSeparators, IsParagraph;
    if group != [] { JoinDropsBack(group); }
    assert Body([Join(group)]) == DropSeparators(Join(group)) + Body([Join(group)][1..]);
  }

  /** Chunking never reorders, repeats or drops a paragraph: it renders each one in turn. */
  lemma {:induction false} ChunksRender(ps: seq<string>, group: seq<string>, max: nat)
    requires max > 0
    requires forall p :: p in ps ==> IsParagraph(p)
    requires forall p :: p in group ==> IsParagraph(p)
    ensures Body(ChunksFrom(ps, Join(group), max)) == Concat(group) + Render(ps, max)
    decreases |ps|, 0
  {
    hide EncodeAll, DropSeparators, Parts, Utf8Len, IsParagraph, ChunksFrom, Body, Join, Concat;
    var open := Join(group);
    FlushKeepsBody(group, false);
    if ps == [] {
      ChunksFromEnds("", open, max);
      FlushKeepsBody(group, open != "");
      ConcatFew("");
    } else {
      var p := ps[0];
      assert ps == [p] + ps[1..];
      ChunksFromStep(p, ps[1..], open, max);
      var full := open != "" && Utf8Len(open) + Utf8Len(p) + 2 > max;
      FlushKeepsBody(group, full);
      var group' := if full then [] else group;
      JoinOfFew(p);
      ConcatFew(p);
      if Utf8Len(p) > max {
        LargeParagraphRenders(p, ps[1..], max);
        BodyAppends(Flushed(open, full), Parts(EncodeAll(p), max) + ChunksFrom(ps[1..], "", max));
      } else {
        SmallParagraphRenders(p, ps[1..], group', max);
        BodyAppends(Flushed(open, full), ChunksFrom(ps[1..], Join(group' + [p]), max));
        assert RenderOne(p, max) == p;
        Associative(Body(Flushed(open, full)), Concat(group'), RenderOne(p, max) + Render(ps[1..], max));
      }
    }
  }

  lemma JoinOfFew(p: string)
    ensures Join([]) == "" && Join([p]) == p
  {
  }

  lemma LargeParagraphRenders(p: string, ps: seq<string>, max: nat)
    requires max > 0 && IsParagraph(p) && Utf8Len(p) > max
    requires forall q :: q in ps ==> IsParagraph(q)
    ensures Body(Parts(EncodeAll(p), max) + ChunksFrom(ps, "", max)) == RenderOne(p, max) + Render(ps, max)
    decreases |ps|, 1
  {
    hide EncodeAll, Parts, Utf8Len, IsParagraph, ChunksFrom, Body, Concat, CutsAligned;
    RenderedParts(p, max);
    ChunksRender(ps, [], max);
    JoinOfFew(p);
    ConcatFew(p);
    BodyAppends(Parts(EncodeAll(p), max), ChunksFrom(ps, "", max));
  }

  lemma SmallParagraphRenders(p: string, ps: seq<string>, group: seq<string>, max: nat)
    requires max > 0 && IsParagraph(p)
    requires forall q :: q in ps ==> IsParagraph(q)
    requires forall q :: q in group ==> IsParagraph(q)
    ensures Join(group + [p]) == if Join(group) == "" then p else Join(group) + "\n\n" + p
    ensures Body(ChunksFrom(ps, Join(group + [p]), max)) == Concat(group) + (p + Render(ps, max))
    decreases |ps|, 1
  {
    hide IsParagraph, ChunksFrom, Body, Concat, Join, Render;
    FlushKeepsBody(group, false);
    JoinOfFew(p);
    ConcatFew(p);
    if group != [] { JoinOneMore(group, p); } else { assert group + [p] == [p]; }
    ChunksRender(ps, group + [p], max);
    ConcatAppends(group, [p]);
    Associative(Concat(group), p, Render(ps, max));
  }

  lemma RenderedParts(p: string, max: nat)
    requires max > 0 && IsParagraph(p)
    ensures Body(Parts(EncodeAll(p), max)) == Concat(Parts(EncodeAll(p), max))
    ensures |Concat(Parts(EncodeAll(p), max))| >= |p|
    ensures |Concat(Parts(EncodeAll(p), max))| == |p| <==> CutsAligned(p, 0, max)
    ensures CutsAligned(p, 0, max) ==> Concat(Parts(EncodeAll(p), max)) == p
  {
    hide Encode, DecodeLossy, EncodeAll, CharAt, Lead, Parts;
    EndOfText(p);
    PartsFrom(p, 0, max);
    assert EncodeAll(p)[0..] == EncodeAll(p);
    assert p[0..] == p;
    BodyOfParts(Parts(EncodeAll(p), max));
  }

  lemma {:induction false} RenderFaithful(ps: seq<string>, max: nat)
    requires max > 0 && forall p :: p in ps ==> IsParagraph(p)
    ensures |Render(ps, max)| >= |Concat(ps)|
    ensures |Render(ps, max)| == |Concat(ps)| <==> NoCharacterIsCut(ps, max)
    ensures NoCharacterIsCut(ps, max) ==> Render(ps, max) == Concat(ps)
  {
    hide Encode, DecodeLossy, EncodeAll, CharAt, Lead, Parts, Utf8Len, IsParagraph, CutsAligned;
    if ps != [] {
      RenderFaithful(ps[1..], max);
      RenderedParts(ps[0], max);
      assert forall p :: p in ps <==> p == ps[0] || p in ps[1..];
    }
  }

  /**
   * With the separators dropped, the chunks spell the trimmed paragraphs in order if and only if
   * no byte cut of an oversized paragraph falls inside a character.
   */
  lemma ChunksPreserveText(content: string, max: nat)
    requires max > 0
    ensures Body(ChunkText(content, max)) == Concat(Paragraphs(content))
            <==> NoCharacterIsCut(Paragraphs(content), max)
  {
    hide Encode, DecodeLossy, EncodeAll, Parts, Utf8Len, CutsAligned;
    var ps := Paragraphs(content);
    ParagraphsAreProper(content);
    ChunksRender(ps, [], max);
    RenderFaithful(ps, max);
  }

  lemma EmptyLength()
    ensures Utf8Len("") == 0
  {
  }

  lemma {:induction false} PieceCharacters(s: string)
    ensures forall q, c :: q in SplitBlankLines(s) && c in q ==> c in s
  {
    if |s| >= 2 {
      if s[0] == '\n' && s[1] == '\n' {
        PieceCharacters(s[2..]);
        assert forall q :: q in SplitBlankLines(s) ==> q == "" || q in SplitBlankLines(s[2..]);
      } else {
        var r := SplitBlankLines(s[1..]);
        PieceCharacters(s[1..]);
        assert r[0] in r;
        assert forall q :: q in SplitBlankLines(s) ==> q == [s[0]] + r[0] || q in r;
      }
    }
  }

  lemma {:induction false} ParagraphCharacters(pieces: seq<string>, p: string)
    requires p in NonEmptyTrimmed(pieces)
    ensures exists q :: q in pieces && forall c :: c in p ==> c in q
  {
    var q := pieces[0];
    TrimStartFacts(q);
    TrimEndFacts(TrimStart(q));
    if p != Trim(q) {
      ParagraphCharacters(pieces[1..], p);
      var q' :| q' in pieces[1..] && forall c :: c in p ==> c in q';
      assert q' in pieces;
    } else {
      assert forall c :: c in p ==> c in TrimStart(q);
      assert q in pieces;
    }
  }
}
