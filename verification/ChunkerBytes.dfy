/** Exactly when the chunks of `chunk_text` stay within the limit in bytes as well as in characters. */
module ChunkerBytes {
  import opened Basics
  import opened Text
  import opened Chunker
  import opened ChunkerTheorems

  // ------------------------------------------------------ what a caller can check

  /** Byte `e` of `p` falls after three bytes of a four-byte character. */
  predicate SplitsThreeToOne(p: string, e: nat) {
    && e <= Utf8Len(p) && Lead(p, e) == 1
    && CharAt(p, e) > 0 && |Encode(p[CharAt(p, e) - 1])| == 4
  }

  /**
   * Every cut from byte `j` on falls between two characters, except that the last one may fall after
   * three bytes of a four-byte character if what follows it leaves two bytes to spare.
   */
  predicate CutsFit(p: string, j: nat, max: nat)
    requires max > 0
    decreases Utf8Len(p) - j
  {
    j + max < Utf8Len(p) ==>
      if IsBoundary(p, j + max) then CutsFit(p, j + max, max)
      else SplitsThreeToOne(p, j + max) && Utf8Len(p) - (j + max) <= max - 2
  }

  predicate AllCutsFit(ps: seq<string>, max: nat)
    requires max > 0
  {
    forall p :: p in ps && Utf8Len(p) > max ==> CutsFit(p, 0, max)
  }

  predicate AllFit(chunks: seq<string>, max: nat) {
    forall c :: c in chunks ==> Utf8Len(c) <= max
  }

  // ------------------------------------------------------ the length of one part

  lemma {:induction false} MarksLength(n: nat)
    ensures Utf8Len(Replacements(n)) == 3 * n
  {
    if n > 0 {
      MarksLength(n - 1);
      assert Replacements(n)[1..] == Replacements(n - 1);
      assert |Encode(REPLACEMENT)| == 3;
    }
  }

  /** How many bytes of the character cut at `e` come before the cut. */
  function Before(p: string, e: nat): int
    requires e <= Utf8Len(p) && CharAt(p, e) > 0
  {
    |Encode(p[CharAt(p, e) - 1])| - Lead(p, e)
  }

  lemma OneCharacter(p: string, k: nat)
    requires 0 < k <= |p|
    ensures Utf8Len(p[..k]) == Utf8Len(p[..k - 1]) + |Encode(p[k - 1])|
  {
    hide Encode;
    assert p[..k] == p[..k - 1] + [p[k - 1]];
    EncodeAllAppends(p[..k - 1], [p[k - 1]]);
    assert [p[k - 1]][1..] == "";
  }

  /** The whole characters of a slice and the mark of a cut end. */
  lemma WholeLength(p: string, j: nat, e: nat)
    requires j <= Utf8Len(p) && e <= Utf8Len(p) && CharAt(p, j) < CharAt(p, e)
    ensures Utf8Len(Whole(p, CharAt(p, j), CharAt(p, e), Lead(p, e) > 0)) ==
            e - j - Lead(p, j) + if Lead(p, e) > 0 then 3 - Before(p, e) else 0
  {
    hide Encode, EncodeAll, CharAt;
    var k, k' := CharAt(p, j), CharAt(p, e);
    assert p[..k'] == p[..k] + p[k..k'];
    EncodeAllAppends(p[..k], p[k..k']);
    if Lead(p, e) > 0 {
      OneCharacter(p, k');
      assert p[..k' - 1] == p[..k] + p[k..k' - 1];
      EncodeAllAppends(p[..k], p[k..k' - 1]);
      EncodeAllAppends(p[k..k' - 1], [REPLACEMENT]);
      OneMark();
    }
  }

  lemma OneMark()
    ensures Utf8Len([REPLACEMENT]) == 3
  {
    assert [REPLACEMENT] == Replacements(1);
    MarksLength(1);
  }

  /** A decoded slice has two bytes more for each byte of a cut start, and pads a cut end to three. */
  lemma SliceLength(p: string, j: nat, e: nat)
    requires j <= Utf8Len(p) && j + Lead(p, j) < e <= Utf8Len(p)
    ensures CharAt(p, e) > 0
    ensures Utf8Len(DecodeLossy(EncodeAll(p)[j..e])) ==
            e - j + 2 * Lead(p, j) + if Lead(p, e) > 0 then 3 - Before(p, e) else 0
  {
    hide Encode, EncodeAll, CharAt, DecodeLossy, Before;
    SliceAcrossCharacters(p, j, e);
    var whole := Whole(p, CharAt(p, j), CharAt(p, e), Lead(p, e) > 0);
    EncodeAllAppends(Replacements(Lead(p, j)), whole);
    MarksLength(Lead(p, j));
    WholeLength(p, j, e);
  }

  /** A cut character has at least one byte before the cut and at most three after it. */
  lemma CutCharacter(p: string, e: nat)
    requires e <= Utf8Len(p) && Lead(p, e) > 0
    ensures CharAt(p, e) > 0 && 1 <= Before(p, e) && Lead(p, e) <= 3 && e + Lead(p, e) <= Utf8Len(p)
    decreases |p|
  {
    hide Encode;
    var k := CharAt(p, e);
    EndOfText(p);
    CutCharacterStarts(p, e);
    OneCharacter(p, k);
    LengthSplits(p, k);
  }

  /** The cut character starts before the cut. */
  lemma {:induction false} CutCharacterStarts(p: string, e: nat)
    requires 0 < e <= Utf8Len(p)
    ensures CharAt(p, e) > 0 && Utf8Len(p[..CharAt(p, e) - 1]) < e
    decreases |p|
  {
    hide Encode;
    var w := |Encode(p[0])|;
    var k := CharAt(p, e);
    PrefixLength(p, k - 1);
    if e <= w {
      assert p[..0] == "" && p[1..][..0] == "";
    } else {
      CutCharacterStarts(p[1..], e - w);
    }
  }

  // ------------------------------------------------------ the parts of one paragraph

  /** What follows a misaligned cut fits iff it is one part with two bytes to spare. */
  lemma TailFits(p: string, e: nat, max: nat)
    requires max >= 4 && e < Utf8Len(p) && Lead(p, e) > 0
    ensures Lead(p, e) == 1 ==> (AllFit(Parts(EncodeAll(p)[e..], max), max) <==> Utf8Len(p) - e <= max - 2)
  {
    hide Encode, EncodeAll, CharAt, DecodeLossy, Before;
    var bytes := EncodeAll(p)[e..];
    CutCharacter(p, e);
    EndOfText(p);
    if Lead(p, e) == 1 {
      if |bytes| > max {
        assert bytes[..max] == EncodeAll(p)[e..e + max];
        SliceLength(p, e, e + max);
        if Lead(p, e + max) > 0 { CutBefore(p, e + max); }
        assert Parts(bytes, max)[0] in Parts(bytes, max);
      } else {
        assert bytes == EncodeAll(p)[e..Utf8Len(p)];
        if |bytes| > 1 {
          SliceLength(p, e, Utf8Len(p));
        } else {
          SliceInsideCharacter(p, e, Utf8Len(p));
          MarksLength(1);
        }
      }
    }
  }

  /** A cut end never shortens a part. */
  lemma CutBefore(p: string, e: nat)
    requires e <= Utf8Len(p) && Lead(p, e) > 0
    ensures CharAt(p, e) > 0 && 1 <= Before(p, e) <= 3
    ensures Before(p, e) == 3 <==> SplitsThreeToOne(p, e)
  {
    hide CharAt;
    CutCharacter(p, e);
  }

  lemma FirstPart(bytes: seq<Byte>, max: nat)
    requires 0 < max < |bytes|
    ensures AllFit(Parts(bytes, max), max) <==>
              Utf8Len(DecodeLossy(bytes[..max])) <= max && AllFit(Parts(bytes[max..], max), max)
  {
    hide DecodeLossy, Utf8Len;
    AllFitAppends([DecodeLossy(bytes[..max])], Parts(bytes[max..], max), max);
  }

  lemma AllFitAppends(a: seq<string>, b: seq<string>, max: nat)
    ensures AllFit(a + b, max) <==> AllFit(a, max) && AllFit(b, max)
  {
    hide Utf8Len;
    assert forall c :: c in a + b <==> c in a || c in b;
  }

  lemma {:induction false} PartsFitExactly(p: string, j: nat, max: nat)
    requires max >= 4 && j <= Utf8Len(p) && Lead(p, j) == 0
    ensures AllFit(Parts(EncodeAll(p)[j..], max), max) <==> CutsFit(p, j, max)
    decreases Utf8Len(p) - j
  {
    hide Encode, EncodeAll, CharAt, DecodeLossy, Before, AllFit, SplitsThreeToOne;
    var bytes := EncodeAll(p)[j..];
    if |bytes| <= max {
      LastPartFits(p, j, max);
    } else {
      var e := j + max;
      assert bytes[..max] == EncodeAll(p)[j..e] && bytes[max..] == EncodeAll(p)[e..];
      FirstPart(bytes, max);
      SliceLength(p, j, e);
      if Lead(p, e) == 0 {
        PartsFitExactly(p, e, max);
      } else {
        CutBefore(p, e);
        ThreeToOneLeads(p, e);
        TailFits(p, e, max);
      }
    }
  }

  lemma ThreeToOneLeads(p: string, e: nat)
    ensures SplitsThreeToOne(p, e) ==> Lead(p, e) == 1
  {
  }

  lemma LastPartFits(p: string, j: nat, max: nat)
    requires max > 0 && j <= Utf8Len(p) && Lead(p, j) == 0 && Utf8Len(p) - j <= max
    ensures AllFit(Parts(EncodeAll(p)[j..], max), max)
  {
    hide Encode, EncodeAll, CharAt, DecodeLossy;
    EndOfText(p);
    if j < Utf8Len(p) {
      assert EncodeAll(p)[j..] == EncodeAll(p)[j..Utf8Len(p)];
      SliceLength(p, j, Utf8Len(p));
    }
  }

  // ------------------------------------------------------ the whole text

  lemma {:induction false} ChunksFromFitExactly(ps: seq<string>, current: string, max: nat)
    requires max >= 4 && Utf8Len(current) <= max
    ensures AllFit(ChunksFrom(ps, current, max), max) <==> AllCutsFit(ps, max)
    decreases |ps|
  {
    hide EncodeAll, Parts, Utf8Len, CutsFit, AllFit, AllCutsFit;
    FlushedFits(current, max);
    if ps == [] {
      NoCuts(max);
    } else {
      var p := ps[0];
      var full := current != "" && Utf8Len(current) + Utf8Len(p) + 2 > max;
      var open := if full then "" else current;
      assert Utf8Len("") == 0 by { EmptyLength(); }
      FirstCuts(ps, max);
      if Utf8Len(p) > max {
        EndOfText(p);
        PartsFitExactly(p, 0, max);
        assert EncodeAll(p)[0..] == EncodeAll(p);
        var rest := ChunksFrom(ps[1..], open, max);
        ChunksFromFitExactly(ps[1..], open, max);
        AllFitAppends(Parts(EncodeAll(p), max), rest, max);
        AllFitAppends(Flushed(current, full), Parts(EncodeAll(p), max) + rest, max);
      } else {
        LengthOfJoined(open, p);
        var joined := if open == "" then p else open + "\n\n" + p;
        ChunksFromFitExactly(ps[1..], joined, max);
        AllFitAppends(Flushed(current, full), ChunksFrom(ps[1..], joined, max), max);
      }
    }
  }

  lemma FlushedFits(current: string, max: nat)
    requires Utf8Len(current) <= max
    ensures forall flush :: AllFit(Flushed(current, flush), max)
  {
    hide Utf8Len;
  }

  lemma NoCuts(max: nat)
    requires max > 0
    ensures AllCutsFit([], max)
  {
  }

  lemma FirstCuts(ps: seq<string>, max: nat)
    requires ps != [] && max > 0
    ensures AllCutsFit(ps, max) <==> (Utf8Len(ps[0]) > max ==> CutsFit(ps[0], 0, max)) && AllCutsFit(ps[1..], max)
  {
    hide Utf8Len, CutsFit;
    assert forall p :: p in ps <==> p == ps[0] || p in ps[1..];
  }

  /** The byte bound, exactly: all chunks fit iff the cuts of every oversized paragraph do. */
  lemma ChunksFitExactly(content: string, max: nat)
    requires max >= 4
    ensures (forall c :: c in ChunkText(content, max) ==> Utf8Len(c) <= max) <==> AllCutsFit(Paragraphs(content), max)
  {
    hide Paragraphs, ChunksFrom, AllCutsFit, Utf8Len;
    assert Utf8Len("") == 0 by { EmptyLength(); }
    ChunksFromFitExactly(Paragraphs(content), "", max);
  }

  // ------------------------------------------------------ text whose characters are not cut

  lemma {:induction false} AsciiCutsAligned(p: string, j: nat, max: nat)
    requires max > 0 && IsAscii(p) && j <= Utf8Len(p)
    ensures CutsAligned(p, j, max)
    decreases Utf8Len(p) - j
  {
    hide Encode;
    if j + max < Utf8Len(p) {
      AsciiBoundary(p, j + max);
      AsciiCutsAligned(p, j + max, max);
    }
  }

  lemma AsciiBoundary(p: string, j: nat)
    requires IsAscii(p) && j <= Utf8Len(p)
    ensures IsBoundary(p, j)
  {
    LengthInBytes(p);
    var t := p[..j];
    assert forall c :: c in t || c in p[j..] ==> c in p;
    LengthInBytes(t);
    CharAtShifts(p, j, 0);
    EndOfText(p[j..]);
  }

  /** ASCII text is always preserved, and its chunks are bounded in bytes too. */
  lemma AsciiChunks(content: string, max: nat)
    requires max > 0 && IsAscii(content)
    ensures Body(ChunkText(content, max)) == Concat(Paragraphs(content))
    ensures forall c :: c in ChunkText(content, max) ==> Utf8Len(c) <= max
  {
    hide Encode, CutsAligned;
    forall p | p in Paragraphs(content)
      ensures CutsAligned(p, 0, max)
    {
      ParagraphCharacters(SplitBlankLines(content), p);
      PieceCharacters(content);
      AsciiCutsAligned(p, 0, max);
    }
    ChunksPreserveText(content, max);
    ChunksFitInBytes(content, max);
  }

  /** The byte bound holds whenever no character is cut. */
  lemma ChunksFitInBytes(content: string, max: nat)
    requires max > 0 && NoCharacterIsCut(Paragraphs(content), max)
    ensures forall c :: c in ChunkText(content, max) ==> Utf8Len(c) <= max
  {
    ChunksFromFit(Paragraphs(content), "", max);
  }

  lemma {:induction false} ChunksFromFit(ps: seq<string>, current: string, max: nat)
    requires max > 0 && Utf8Len(current) <= max && NoCharacterIsCut(ps, max)
    ensures forall c :: c in ChunksFrom(ps, current, max) ==> Utf8Len(c) <= max
    decreases |ps|
  {
    hide EncodeAll, Parts, Utf8Len, CutsAligned;
    assert Utf8Len("") == 0 by { EmptyLength(); }
    if ps != [] {
      var p := ps[0];
      assert p in ps && forall q :: q in ps[1..] ==> q in ps;
      var full := current != "" && Utf8Len(current) + Utf8Len(p) + 2 > max;
      var open := if full then "" else current;
      if Utf8Len(p) > max {
        EndOfText(p);
        PartsFit(p, 0, max);
        assert EncodeAll(p)[0..] == EncodeAll(p);
        ChunksFromFit(ps[1..], open, max);
      } else {
        LengthOfJoined(open, p);
        ChunksFromFit(ps[1..], if open == "" then p else open + "\n\n" + p, max);
      }
    }
  }

  lemma {:induction false} PartsFit(p: string, j: nat, max: nat)
    requires max > 0 && j <= Utf8Len(p) && Lead(p, j) == 0 && CutsAligned(p, j, max)
    ensures AllFit(Parts(EncodeAll(p)[j..], max), max)
    decreases Utf8Len(p) - j
  {
    hide Encode, EncodeAll, CharAt, DecodeLossy, AllFit;
    var bytes := EncodeAll(p)[j..];
    if |bytes| <= max {
      LastPartFits(p, j, max);
    } else {
      var e := j + max;
      assert bytes[..max] == EncodeAll(p)[j..e] && bytes[max..] == EncodeAll(p)[e..];
      FirstPart(bytes, max);
      SliceLength(p, j, e);
      PartsFit(p, e, max);
    }
  }

  // ------------------------------------------------------ at the limit of ingestion

  function Letters(n: nat): string {
    seq(n, _ => 'a')
  }

  lemma {:induction false} OneLine(s: string)
    requires '\n' !in s
    ensures SplitBlankLines(s) == [s]
  {
    if |s| >= 2 {
      assert s[0] in s && forall c :: c in s[1..] ==> c in s;
      OneLine(s[1..]);
      assert [s[0]] + s[1..] == s;
      assert SplitBlankLines(s) == [[s[0]] + [s[1..]][0]] + [s[1..]][1..];
    }
  }

  /** `n` letters and one more visible character are one paragraph. */
  lemma LettersAreOneParagraph(n: nat, c: char)
    requires n > 0 && !IsWhitespace(c)
    ensures Paragraphs(Letters(n) + [c]) == [Letters(n) + [c]]
  {
    var s := Letters(n) + [c];
    assert '\n' !in s;
    OneLine(s);
    assert s[0] == 'a' && s[|s| - 1] == c;
    assert TrimStart(s) == s && TrimEnd(s) == s;
    assert NonEmptyTrimmed([s]) == [s] + NonEmptyTrimmed([s][1..]);
  }

  /** A cut `m` bytes into the last character. */
  lemma LettersCut(n: nat, c: char, m: nat)
    requires 0 < m < |Encode(c)|
    ensures var s := Letters(n) + [c];
      && Utf8Len(s) == n + |Encode(c)|
      && CharAt(s, n + m) == n + 1 && s[n] == c && Lead(s, n + m) == |Encode(c)| - m
  {
    hide Encode;
    var s := Letters(n) + [c];
    assert s[..n] == Letters(n) && s[n..] == [c];
    LengthInBytes(Letters(n));
    assert [c][1..] == "";
    assert EncodeAll([c]) == Encode(c) + EncodeAll("");
    CharAtShifts(s, n, m);
    assert CharAt([c], m) == 1 && [c][..1] == [c];
  }

  /** 999 letters and a two-byte character: the first chunk has 1002 bytes. */
  lemma CutCharacterGrows()
    ensures var s := Letters(999) + ['\U{E9}'];
      && ChunkText(s, MAXIMUM_CHARS) != [] && Utf8Len(ChunkText(s, MAXIMUM_CHARS)[0]) == 1_002
  {
    hide EncodeAll, CharAt, DecodeLossy, Paragraphs;
    var s := Letters(999) + ['\U{E9}'];
    LettersAreOneParagraph(999, '\U{E9}');
    LettersCut(999, '\U{E9}', 1);
    EndOfText(s);
    SliceLength(s, 0, 1_000);
    OversizedParagraph(s, MAXIMUM_CHARS);
  }

  lemma OversizedParagraph(p: string, max: nat)
    requires 0 < max < Utf8Len(p) && Paragraphs(p) == [p]
    ensures ChunkText(p, max) != [] && ChunkText(p, max)[0] == DecodeLossy(EncodeAll(p)[0..max])
  {
    hide Paragraphs, DecodeLossy;
    ChunksFromStep(p, [], "", max);
    assert [p] + [] == [p];
    assert Parts(EncodeAll(p), max)[0] == DecodeLossy(EncodeAll(p)[..max]);
  }

  /** 997 letters and a four-byte character: the cut falls inside the character, and both chunks fit. */
  lemma CutCharacterMayFit()
    ensures var s := Letters(997) + ['\U{1F600}'];
      !NoCharacterIsCut(Paragraphs(s), MAXIMUM_CHARS) && AllFit(ChunkText(s, MAXIMUM_CHARS), MAXIMUM_CHARS)
  {
    hide EncodeAll, CharAt, Paragraphs, ChunkText;
    var s := Letters(997) + ['\U{1F600}'];
    LettersAreOneParagraph(997, '\U{1F600}');
    LettersCut(997, '\U{1F600}', 3);
    assert s in Paragraphs(s) && !IsBoundary(s, 1_000);
    assert CutsFit(s, 0, MAXIMUM_CHARS);
    ChunksFitExactly(s, MAXIMUM_CHARS);
  }
}
