/** `chunk_text`: paragraph-aware chunking by byte length. */
module Chunker {
  import opened Text

  /** The limit that ingestion passes to `chunk_text`. */
  const MAXIMUM_CHARS := 1_000

  // --------------------------------------------------- `trim` and `split`

  /** The characters with the Unicode White_Space property. */
  predicate IsWhitespace(c: char) {
    var n := c as int;
    9 <= n <= 13 || n == 0x20 || n == 0x85 || n == 0xA0 || n == 0x1680 || 0x2000 <= n <= 0x200A
    || n == 0x2028 || n == 0x2029 || n == 0x202F || n == 0x205F || n == 0x3000
  }

  predicate IsBlank(s: string) {
    forall c :: c in s ==> IsWhitespace(c)
  }

  /** The characters that are not white space, in order. */
  function Visible(s: string): string {
    if s == "" then "" else (if IsWhitespace(s[0]) then "" else [s[0]]) + Visible(s[1..])
  }

  function TrimStart(s: string): string {
    if s != "" && IsWhitespace(s[0]) then TrimStart(s[1..]) else s
  }

  function TrimEnd(s: string): string {
    if s != "" && IsWhitespace(s[|s| - 1]) then TrimEnd(s[..|s| - 1]) else s
  }

  function Trim(s: string): string {
    TrimEnd(TrimStart(s))
  }

  /** `str::split("\n\n")`: leftmost, non-overlapping matches. */
  function SplitBlankLines(s: string): (r: seq<string>)
    ensures |r| > 0 && r[0] <= s
  {
    if |s| < 2 then [s]
    else if s[0] == '\n' && s[1] == '\n' then [""] + SplitBlankLines(s[2..])
    else
      var r := SplitBlankLines(s[1..]);
      [[s[0]] + r[0]] + r[1..]
  }

  /** The non-empty trimmed paragraphs, in order. */
  function NonEmptyTrimmed(pieces: seq<string>): seq<string> {
    if pieces == [] then []
    else (if Trim(pieces[0]) == "" then [] else [Trim(pieces[0])]) + NonEmptyTrimmed(pieces[1..])
  }

  function Paragraphs(content: string): seq<string> {
    NonEmptyTrimmed(SplitBlankLines(content))
  }

  /** No separator inside, and no line break at either end. */
  predicate IsParagraph(p: string) {
    && p != ""
    && p[0] != '\n' && p[|p| - 1] != '\n'
    && NoBlankLine(p)
  }

  predicate NoBlankLine(p: string) {
    forall i :: 0 <= i < |p| - 1 ==> p[i] != '\n' || p[i + 1] != '\n'
  }

  // ------------------------------------------------------------- chunking

  /** `paragraph.as_bytes().chunks(max)`, each part decoded lossily. */
  function Parts(bytes: seq<Byte>, max: nat): seq<string>
    requires max > 0
  {
    if bytes == [] then []
    else if |bytes| <= max then [DecodeLossy(bytes)]
    else [DecodeLossy(bytes[..max])] + Parts(bytes[max..], max)
  }

  /** The chunks still to come when `current` is the open buffer. */
  function ChunksFrom(ps: seq<string>, current: string, max: nat): seq<string>
    requires max > 0
    decreases |ps|
  {
    if ps == [] then Flushed(current, current != "")
    else
      var p := ps[0];
      var full := current != "" && Utf8Len(current) + Utf8Len(p) + 2 > max;
      var open := if full then "" else current;
      Flushed(current, full) +
      if Utf8Len(p) > max then Parts(EncodeAll(p), max) + ChunksFrom(ps[1..], open, max)
      else ChunksFrom(ps[1..], if open == "" then p else open + "\n\n" + p, max)
  }

  function Flushed(current: string, flush: bool): seq<string> {
    if flush then [current] else []
  }

  function ChunkText(content: string, max: nat): seq<string>
    requires max > 0
  {
    ChunksFrom(Paragraphs(content), "", max)
  }

  /** One paragraph's worth of `ChunksFrom`. */
  lemma ChunksFromStep(p: string, rest: seq<string>, current: string, max: nat)
    requires max > 0
    ensures var full := current != "" && Utf8Len(current) + Utf8Len(p) + 2 > max;
      var open := if full then "" else current;
      ChunksFrom([p] + rest, current, max) == Flushed(current, full) +
        if Utf8Len(p) > max then Parts(EncodeAll(p), max) + ChunksFrom(rest, open, max)
        else ChunksFrom(rest, if open == "" then p else open + "\n\n" + p, max)
  {
    assert ([p] + rest)[1..] == rest;
  }

  lemma TrimmedStep(pieces: seq<string>, i: nat)
    requires i < |pieces|
    ensures NonEmptyTrimmed(pieces[i..]) ==
            if Trim(pieces[i]) == "" then NonEmptyTrimmed(pieces[i + 1..])
            else [Trim(pieces[i])] + NonEmptyTrimmed(pieces[i + 1..])
  {
    hide Trim;
    assert pieces[i..][1..] == pieces[i + 1..];
  }

  lemma ChunksFromEnds(content: string, current: string, max: nat)
    requires max > 0
    ensures ChunkText(content, max) == ChunksFrom(NonEmptyTrimmed(SplitBlankLines(content)), "", max)
    ensures ChunksFrom([], current, max) == Flushed(current, current != "") && NonEmptyTrimmed([]) == []
  {
  }

  /** The loop over paragraphs with its `chunks` and `current` buffers. */
  method ChunkTextLoop(content: string, maximumChars: nat) returns (chunks: seq<string>)
    requires maximumChars > 0
    ensures chunks == ChunkText(content, maximumChars)
  {
    hide Trim, Utf8Len, SplitBlankLines, ChunksFrom, Parts, ChunkText, NonEmptyTrimmed;
    chunks := [];
    var current := "";
    var pieces := SplitBlankLines(content);
    assert pieces[0..] == pieces;
    ChunksFromEnds(content, current, maximumChars);
    for i := 0 to |pieces|
      invariant ChunkText(content, maximumChars) ==
                chunks + ChunksFrom(NonEmptyTrimmed(pieces[i..]), current, maximumChars)
    {
      var paragraph := Trim(pieces[i]);
      ghost var rest := NonEmptyTrimmed(pieces[i + 1..]);
      TrimmedStep(pieces, i);
      if paragraph == "" { continue; }
      ChunksFromStep(paragraph, rest, current, maximumChars);
      if current != "" && Utf8Len(current) + Utf8Len(paragraph) + 2 > maximumChars {
        chunks := chunks + [current];
        current := "";
      }
      if Utf8Len(paragraph) > maximumChars {
        var parts := SplitBytes(EncodeAll(paragraph), maximumChars);
        chunks := chunks + parts;
      } else {
        current := if current == "" then paragraph else current + "\n\n" + paragraph;
      }
    }
    assert pieces[|pieces|..] == [];
    ChunksFromEnds(content, current, maximumChars);
    if current != "" {
      chunks := chunks + [current];
    }
  }

  /** The inner loop over `as_bytes().chunks(max)`. */
  method SplitBytes(bytes: seq<Byte>, max: nat) returns (parts: seq<string>)
    requires max > 0
    ensures parts == Parts(bytes, max)
  {
    hide DecodeLossy;
    parts := [];
    var start := 0;
    assert bytes[0..] == bytes;
    while start < |bytes|
      invariant start <= |bytes|
      invariant Parts(bytes, max) == parts + Parts(bytes[start..], max)
    {
      var end := if |bytes| - start <= max then |bytes| else start + max;
      ghost var rest := bytes[start..];
      assert rest[..end - start] == bytes[start..end];
      assert rest[end - start..] == bytes[end..];
      if end == |bytes| {
        assert bytes[start..end] == rest && bytes[end..] == [];
      }
      assert Parts(rest, max) == [DecodeLossy(bytes[start..end])] + Parts(bytes[end..], max);
      parts := parts + [DecodeLossy(bytes[start..end])];
      start := end;
    }
  }
}
