/** Strings as Rust sees them: characters, their UTF-8 bytes, `trim`, `split` and lossy decoding. */
module Text {
  import opened Basics

  type Byte = b: nat | b < 256

  const REPLACEMENT: char := 0xFFFD as char

  // ---------------------------------------------------------------- UTF-8

  function Encode(c: char): (bytes: seq<Byte>)
    ensures 1 <= |bytes| <= 4
    ensures forall i :: 0 < i < |bytes| ==> IsContinuation(bytes[i])
    ensures !IsContinuation(bytes[0])
  {
    var n := c as int;
    if n < 0x80 then [n]
    else if n < 0x800 then [0xC0 + n / 64, 0x80 + n % 64]
    else if n < 0x10000 then [0xE0 + n / 4096, 0x80 + n / 64 % 64, 0x80 + n % 64]
    else [0xF0 + n / 262144, 0x80 + n / 4096 % 64, 0x80 + n / 64 % 64, 0x80 + n % 64]
  }

  predicate IsContinuation(b: Byte) {
    0x80 <= b < 0xC0
  }

  function EncodeAll(s: string): seq<Byte> {
    if s == "" then [] else Encode(s[0]) + EncodeAll(s[1..])
  }

  /** `str::len`: the number of bytes, not characters. */
  function Utf8Len(s: string): nat {
    |EncodeAll(s)|
  }

  /** The second byte of a multi-byte sequence, excluding overlong forms and surrogates. */
  predicate SecondByteFits(b0: Byte, b1: Byte) {
    if b0 == 0xE0 then 0xA0 <= b1 < 0xC0
    else if b0 == 0xED then 0x80 <= b1 < 0xA0
    else if b0 == 0xF0 then 0x90 <= b1 < 0xC0
    else if b0 == 0xF4 then 0x80 <= b1 < 0x90
    else IsContinuation(b1)
  }

  function Width(b0: Byte): nat {
    if b0 < 0x80 then 1
    else if 0xC2 <= b0 < 0xE0 then 2
    else if 0xE0 <= b0 < 0xF0 then 3
    else if 0xF0 <= b0 < 0xF5 then 4
    else 0
  }

  /** Bytes taken by the next well-formed sequence or, failing that, by its longest valid prefix. */
  function Advance(bytes: seq<Byte>): (n: nat)
    requires bytes != []
    ensures 1 <= n <= |bytes|
  {
    var w := Width(bytes[0]);
    if w <= 1 then 1
    else if |bytes| < 2 || !SecondByteFits(bytes[0], bytes[1]) then 1
    else if w == 2 then 2
    else if |bytes| < 3 || !IsContinuation(bytes[2]) then 2
    else if w == 3 then 3
    else if |bytes| < 4 || !IsContinuation(bytes[3]) then 3
    else 4
  }

  /** The six payload bits of a continuation byte, placed above `low`. */
  function Payload(high: int, b: int): int {
    high * 64 + (b - 0x80)
  }

  function DecodeOne(bytes: seq<Byte>): char
    requires bytes != []
  {
    var b0: int := bytes[0];
    var n := Advance(bytes);
    if Width(bytes[0]) != n then REPLACEMENT
    else if n == 1 then b0 as char
    else
      var two := Payload(b0 - (if n == 2 then 0xC0 else if n == 3 then 0xE0 else 0xF0), bytes[1]);
      if n == 2 then two as char
      else
        var three := Payload(two, bytes[2]);
        if n == 3 then three as char else Payload(three, bytes[3]) as char
  }

  /** `String::from_utf8_lossy`: one U+FFFD per maximal ill-formed prefix. */
  function DecodeLossy(bytes: seq<Byte>): (s: string)
    ensures |s| <= |bytes|
  {
    if bytes == [] then ""
    else [DecodeOne(bytes)] + DecodeLossy(bytes[Advance(bytes)..])
  }

  function Replacements(n: nat): (s: string)
    ensures |s| == n
    ensures forall i :: 0 <= i < n ==> s[i] == REPLACEMENT
  {
    seq(n, _ => REPLACEMENT)
  }

  /** A character's own bytes decode to that character, whatever follows. */
  lemma EncodeDecodes(c: char, rest: seq<Byte>)
    ensures Advance(Encode(c) + rest) == |Encode(c)|
    ensures DecodeOne(Encode(c) + rest) == c
    ensures DecodeLossy(Encode(c) + rest) == [c] + DecodeLossy(rest)
  {
    var n := c as int;
    var all := Encode(c) + rest;
    assert all[0] == Encode(c)[0];
    assert all[|Encode(c)|..] == rest;
    if n < 0x80 {
    } else if n < 0x800 {
      assert all[1] == Encode(c)[1];
    } else if n < 0x10000 {
      assert all[1] == Encode(c)[1] && all[2] == Encode(c)[2];
      assert n / 64 == n / 4096 * 64 + n / 64 % 64;
    } else {
      assert all[1] == Encode(c)[1] && all[2] == Encode(c)[2] && all[3] == Encode(c)[3];
      assert n / 64 == n / 4096 * 64 + n / 64 % 64;
      assert n / 4096 == n / 262144 * 64 + n / 4096 % 64;
    }
  }

  /** A character cut off after its first `m` bytes decodes to one replacement. */
  lemma TruncatedDecodes(c: char, m: nat)
    requires 0 < m < |Encode(c)|
    ensures DecodeLossy(Encode(c)[..m]) == [REPLACEMENT]
  {
    var cut := Encode(c)[..m];
    assert cut[0] == Encode(c)[0];
    if m > 1 { assert cut[1] == Encode(c)[1]; }
    if m > 2 { assert cut[2] == Encode(c)[2]; }
    var n := c as int;
    assert Width(cut[0]) == |Encode(c)|;
    assert Advance(cut) == m;
    assert DecodeLossy(cut[m..]) == "";
  }

  /** A stray continuation byte decodes to one replacement of its own. */
  lemma ContinuationDecodes(bytes: seq<Byte>)
    requires bytes != [] && IsContinuation(bytes[0])
    ensures DecodeLossy(bytes) == [REPLACEMENT] + DecodeLossy(bytes[1..])
  {
  }

  lemma {:induction false} EncodeAllAppends(s: string, t: string)
    ensures EncodeAll(s + t) == EncodeAll(s) + EncodeAll(t)
  {
    hide Encode;
    if s == "" {
      assert s + t == t;
    } else {
      EncodeAllAppends(s[1..], t);
      assert (s + t)[1..] == s[1..] + t;
    }
  }

  lemma {:induction false} LengthInBytes(s: string)
    ensures |s| <= Utf8Len(s) <= 4 * |s|
    ensures IsAscii(s) ==> Utf8Len(s) == |s|
  {
    if s != "" {
      LengthInBytes(s[1..]);
      if IsAscii(s) {
        assert s[0] in s;
        assert forall c :: c in s[1..] ==> c in s;
      }
    }
  }

  predicate IsAscii(s: string) {
    forall c :: c in s ==> c as int < 0x80
  }

  // ------------------------------------------------- cutting encoded text

  /** The index of the first character of `s` that starts at byte `j` or later. */
  function CharAt(s: string, j: nat): (k: nat)
    requires j <= Utf8Len(s)
    ensures k <= |s|
    ensures Utf8Len(s[..k]) >= j
    decreases |s|
  {
    if j == 0 then
      assert s[..0] == "";
      0
    else
      var w := |Encode(s[0])|;
      var k := if j < w then 0 else CharAt(s[1..], j - w);
      PrefixLength(s, k + 1);
      assert s[1..][..0] == "";
      1 + k
  }

  lemma PrefixLength(s: string, k: nat)
    requires k <= |s|
    ensures k > 0 ==> Utf8Len(s[..k]) == |Encode(s[0])| + Utf8Len(s[1..][..k - 1])
  {
    if k > 0 {
      assert s[..k][0] == s[0] && s[..k][1..] == s[1..][..k - 1];
    }
  }

  /** How many bytes of a character that started before byte `j` still follow it. */
  function Lead(s: string, j: nat): nat
    requires j <= Utf8Len(s)
  {
    Utf8Len(s[..CharAt(s, j)]) - j
  }

  /** Byte `j` separates two characters of `s` (`str::is_char_boundary`). */
  predicate IsBoundary(s: string, j: nat) {
    j <= Utf8Len(s) && Lead(s, j) == 0
  }

  lemma BeyondFirst(first: seq<Byte>, rest: seq<Byte>, j: nat, n: nat)
    requires |first| <= j && j + n <= |first| + |rest|
    ensures (first + rest)[j..] == rest[j - |first|..]
    ensures (first + rest)[j..j + n] == rest[j - |first|..j - |first| + n]
    ensures forall i :: j <= i < j + n ==> (first + rest)[i] == rest[i - |first|]
  {
  }

  /** The bytes from `j` on: the rest of the character cut at `j`, then whole characters. */
  lemma {:induction false} BytesFrom(s: string, j: nat)
    requires j <= Utf8Len(s)
    ensures var k := CharAt(s, j);
      j + Lead(s, j) + Utf8Len(s[k..]) == Utf8Len(s)
      && EncodeAll(s)[j..] == EncodeAll(s)[j..j + Lead(s, j)] + EncodeAll(s[k..])
      && forall i :: j <= i < j + Lead(s, j) ==> IsContinuation(EncodeAll(s)[i])
    decreases |s|
  {
    hide Encode;
    var k := CharAt(s, j);
    if j == 0 {
      assert s[..0] == "" && s[0..] == s;
    } else {
      var w := |Encode(s[0])|;
      var tail := s[1..];
      PrefixLength(s, k);
      assert s[k..] == tail[k - 1..];
      if j < w {
        assert tail[..0] == "" && tail[0..] == tail;
      } else {
        BytesFrom(tail, j - w);
        BeyondFirst(Encode(s[0]), EncodeAll(tail), j, Lead(s, j));
      }
    }
  }

  lemma LengthSplits(s: string, k: nat)
    requires k <= |s|
    ensures Utf8Len(s) == Utf8Len(s[..k]) + Utf8Len(s[k..])
  {
    hide EncodeAll;
    assert s == s[..k] + s[k..];
    EncodeAllAppends(s[..k], s[k..]);
  }

  lemma {:induction false} CharAtShifts(s: string, k: nat, m: nat)
    requires k <= |s| && m <= Utf8Len(s[k..])
    ensures Utf8Len(s) == Utf8Len(s[..k]) + Utf8Len(s[k..])
    ensures CharAt(s, Utf8Len(s[..k]) + m) == k + CharAt(s[k..], m)
    ensures Lead(s, Utf8Len(s[..k]) + m) == Lead(s[k..], m)
    decreases k
  {
    hide Encode;
    LengthSplits(s, k);
    if k == 0 {
      assert s[..0] == "" && s[0..] == s;
    } else {
      PrefixLength(s, k);
      assert s[k..] == s[1..][k - 1..];
      CharAtShifts(s[1..], k - 1, m);
      PrefixLength(s, k + CharAt(s[k..], m));
    }
  }

  lemma DecodeNothing()
    ensures DecodeLossy([]) == ""
  {
  }

  /** A prefix of the bytes of `s` decodes to its whole characters and one mark for a cut one. */
  lemma {:induction false} PrefixDecodes(s: string, m: nat)
    requires m <= Utf8Len(s)
    ensures var k := CharAt(s, m);
      DecodeLossy(EncodeAll(s)[..m]) ==
        if Lead(s, m) == 0 then s[..k] else s[..if k == 0 then 0 else k - 1] + [REPLACEMENT]
    ensures Lead(s, m) > 0 ==> CharAt(s, m) > 0
    decreases |s|
  {
    hide Encode, DecodeLossy;
    var k := CharAt(s, m);
    if m == 0 {
      DecodeNothing();
      assert s[..0] == "";
    } else {
      var w := |Encode(s[0])|;
      var tail := s[1..];
      PrefixLength(s, k);
      if m < w {
        assert EncodeAll(s)[..m] == Encode(s[0])[..m];
        TruncatedDecodes(s[0], m);
        assert tail[..0] == "";
      } else {
        var rest := EncodeAll(tail)[..m - w];
        assert EncodeAll(s)[..m] == Encode(s[0]) + rest;
        EncodeDecodes(s[0], rest);
        PrefixDecodes(tail, m - w);
        assert s[..k] == [s[0]] + tail[..k - 1];
        if Lead(s, m) > 0 { assert s[..k - 1] == [s[0]] + tail[..k - 2]; }
      }
    }
  }

  lemma {:induction false} ContinuationsDecode(c: seq<Byte>, rest: seq<Byte>)
    requires forall b :: b in c ==> IsContinuation(b)
    ensures DecodeLossy(c + rest) == Replacements(|c|) + DecodeLossy(rest)
  {
    hide DecodeLossy;
    if c == [] {
      assert c + rest == rest;
    } else {
      ContinuationDecodes(c + rest);
      assert (c + rest)[1..] == c[1..] + rest;
      ContinuationsDecode(c[1..], rest);
      assert Replacements(|c|) == [REPLACEMENT] + Replacements(|c| - 1);
      Associative([REPLACEMENT], Replacements(|c| - 1), DecodeLossy(rest));
    }
  }

  /** No character starts between `j` and the end of the character cut at `j`. */
  lemma {:induction false} CharAtMonotone(s: string, j: nat, e: nat)
    requires j <= e <= Utf8Len(s) && e <= j + Lead(s, j)
    ensures CharAt(s, e) == CharAt(s, j)
    decreases |s|
  {
    hide Encode;
    if j == 0 {
      assert s[..0] == "";
      assert EncodeAll(s[..0]) == [];
    } else {
      var w := |Encode(s[0])|;
      PrefixLength(s, CharAt(s, j));
      if j < w {
        assert s[1..][..0] == "";
        assert EncodeAll(s[1..][..0]) == [];
      } else {
        CharAtMonotone(s[1..], j - w, e - w);
      }
    }
  }

  /** A slice that ends inside the character cut at its start is all replacement marks. */
  lemma SliceInsideCharacter(s: string, j: nat, e: nat)
    requires j <= e <= Utf8Len(s) && e <= j + Lead(s, j)
    ensures DecodeLossy(EncodeAll(s)[j..e]) == Replacements(e - j)
    ensures CharAt(s, e) == CharAt(s, j) && e + Lead(s, e) == j + Lead(s, j)
  {
    hide Encode, CharAt;
    var slice := EncodeAll(s)[j..e];
    BytesFrom(s, j);
    assert forall b :: b in slice ==> IsContinuation(b);
    assert slice + [] == slice;
    ContinuationsDecode(slice, []);
    CharAtMonotone(s, j, e);
  }

  /** Any other slice: marks for the cut start, whole characters, one mark for a cut end. */
  lemma SliceAcrossCharacters(s: string, j: nat, e: nat)
    requires j <= Utf8Len(s) && j + Lead(s, j) < e <= Utf8Len(s)
    ensures CharAt(s, j) < CharAt(s, e)
    ensures DecodeLossy(EncodeAll(s)[j..e]) ==
            Replacements(Lead(s, j)) + Whole(s, CharAt(s, j), CharAt(s, e), Lead(s, e) > 0)
  {
    hide Encode, DecodeLossy, CharAt, EncodeAll;
    var k, l := CharAt(s, j), Lead(s, j);
    var all := EncodeAll(s);
    BytesFrom(s, j);
    var m := e - j - l;
    var t := s[k..];
    assert all[j..e] == all[j..][..e - j] == all[j..j + l] + EncodeAll(t)[..m];
    ContinuationsDecode(all[j..j + l], EncodeAll(t)[..m]);
    CharAtShifts(s, k, m);
    PrefixDecodes(t, m);
    CharAtPositive(t, m);
    var x := CharAt(t, m);
    assert t[..x] == s[k..k + x] && t[..x - 1] == s[k..k + x - 1];
  }

  function Whole(s: string, k: nat, k': nat, cut: bool): string
    requires k < k' <= |s|
  {
    if cut then s[k..k' - 1] + [REPLACEMENT] else s[k..k']
  }

  lemma CharAtPositive(s: string, m: nat)
    requires 0 < m <= Utf8Len(s)
    ensures CharAt(s, m) > 0
  {
  }
}
