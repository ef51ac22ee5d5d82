/** Byte strings: cut at a separator, cut into lines and words, and read as decimal numbers. */
module Bytes {
  import opened Wrappers

  const LF: byte := 10
  const SPACE: byte := 32
  const PLUS: byte := 43
  const MINUS: byte := 45
  const ZERO: byte := 48

  function Ascii(s: string): seq<byte> {
    seq(|s|, i requires 0 <= i < |s| => s[i] as int % 256)
  }

  predicate StartsWith(line: seq<byte>, prefix: seq<byte>) {
    prefix <= line
  }

  // ----- Numbers -----

  predicate IsDigit(b: byte) { ZERO <= b <= ZERO + 9 }

  predicate Digits(s: seq<byte>) {
    forall b | b in s :: IsDigit(b)
  }

  function Value(s: seq<byte>): int {
    if s == [] then 0 else 10 * Value(s[..|s| - 1]) + s[|s| - 1] - ZERO
  }

  /** A decimal integer in a range; a plus sign is always allowed, a minus sign for signed types. */
  function ParseInteger(s: seq<byte>, signed: bool, low: int, high: int): Option<int> {
    var negative := signed && s != [] && s[0] == MINUS;
    var digits := if negative || (s != [] && s[0] == PLUS) then s[1..] else s;
    var value := if negative then -Value(digits) else Value(digits);
    if digits != [] && Digits(digits) && low <= value <= high then Some(value) else None
  }

  function PrintNumber(n: nat): (s: seq<byte>)
    ensures s != [] && Digits(s)
  {
    if n < 10 then [ZERO + n] else PrintNumber(n / 10) + [ZERO + n % 10]
  }

  function PrintInteger(n: int): seq<byte> {
    if n < 0 then [MINUS] + PrintNumber(-n) else PrintNumber(n)
  }

  lemma {:induction false} NumberRoundTrip(n: nat)
    ensures Value(PrintNumber(n)) == n
  {
    if n < 10 {
      assert [ZERO + n][..0] == [];
    } else {
      NumberRoundTrip(n / 10);
      assert PrintNumber(n)[..|PrintNumber(n)| - 1] == PrintNumber(n / 10);
    }
  }

  /** Every integer of the range is read back from its digits; no other is. */
  lemma IntegerRoundTrip(n: int, signed: bool, low: int, high: int)
    requires signed || low >= 0
    ensures ParseInteger(PrintInteger(n), signed, low, high) == if low <= n <= high then Some(n) else None
  {
    hide Value;
    if n < 0 {
      NumberRoundTrip(-n);
      var s := [MINUS] + PrintNumber(-n);
      assert s[0] == MINUS && s[1..] == PrintNumber(-n);
      assert s[0] in s && !IsDigit(MINUS);
    } else {
      NumberRoundTrip(n);
      assert PrintNumber(n)[0] in PrintNumber(n);
    }
  }

  // ----- Words -----

  predicate IsSpace(b: byte) {
    b == SPACE || b == 9 || b == 10 || b == 12 || b == 13
  }

  function WordLength(s: seq<byte>): (n: nat)
    ensures n <= |s| && (s != [] && !IsSpace(s[0]) ==> n > 0)
  {
    if s != [] && !IsSpace(s[0]) then 1 + WordLength(s[1..]) else 0
  }

  /** The nonempty stretches between white space. */
  function Words(s: seq<byte>): seq<seq<byte>>
    decreases |s|
  {
    if s == [] then []
    else if IsSpace(s[0]) then Words(s[1..])
    else [s[..WordLength(s)]] + Words(s[WordLength(s)..])
  }

  predicate Solid(s: seq<byte>) {
    s != [] && forall b | b in s :: !IsSpace(b)
  }

  lemma {:induction false} WordLengthSolid(word: seq<byte>, follow: seq<byte>)
    requires (forall b | b in word :: !IsSpace(b)) && (follow == [] || IsSpace(follow[0]))
    ensures WordLength(word + follow) == |word|
  {
    if word == [] {
      assert word + follow == follow;
    } else {
      WordLengthSolid(word[1..], follow);
      assert (word + follow)[1..] == word[1..] + follow;
    }
  }

  lemma FirstWord(word: seq<byte>, follow: seq<byte>)
    requires Solid(word) && (follow == [] || IsSpace(follow[0]))
    ensures Words(word + follow) == [word] + Words(follow)
  {
    WordLengthSolid(word, follow);
    assert (word + follow)[..|word|] == word && (word + follow)[|word|..] == follow;
    assert (word + follow)[0] == word[0];
  }

  lemma SpaceFirst(s: seq<byte>)
    ensures Words([SPACE] + s) == Words(s)
  {
    assert ([SPACE] + s)[1..] == s;
  }

  /** Four words with single spaces between them. */
  lemma FourWords(a: seq<byte>, b: seq<byte>, c: seq<byte>, d: seq<byte>)
    requires Solid(a) && Solid(b) && Solid(c) && Solid(d)
    ensures Words(a + ([SPACE] + (b + ([SPACE] + (c + ([SPACE] + d)))))) == [a, b, c, d]
  {
    hide Words, Solid;
    var s3 := c + ([SPACE] + d);
    var s2 := b + ([SPACE] + s3);
    LastWord(d);
    SpaceFirst(d);
    FirstWord(c, [SPACE] + d);
    SpaceFirst(s3);
    FirstWord(b, [SPACE] + s3);
    SpaceFirst(s2);
    FirstWord(a, [SPACE] + s2);
  }

  lemma LastWord(word: seq<byte>)
    requires Solid(word)
    ensures Words(word) == [word]
  {
    FirstWord(word, []);
    assert word + [] == word && Words([]) == [];
  }

  lemma ParsedIsSolid(s: seq<byte>, signed: bool, low: int, high: int)
    requires ParseInteger(s, signed, low, high).Some?
    ensures Solid(s)
  {
    if s[0] == PLUS || s[0] == MINUS {
      assert s == [s[0]] + s[1..];
    }
  }

  // ----- Separators -----

  lemma Assoc<T>(a: seq<T>, b: seq<T>, c: seq<T>)
    ensures a + (b + c) == (a + b) + c
  {
  }

  function SplitOn(s: seq<byte>, separator: byte): (parts: seq<seq<byte>>)
    ensures parts != []
  {
    if s == [] then [[]]
    else
      var rest := SplitOn(s[1..], separator);
      if s[0] == separator then [[]] + rest else [[s[0]] + rest[0]] + rest[1..]
  }

  function Join(parts: seq<seq<byte>>, separator: byte): seq<byte> {
    if parts == [] then []
    else if |parts| == 1 then parts[0]
    else parts[0] + ([separator] + Join(parts[1..], separator))
  }

  predicate Free(parts: seq<seq<byte>>, b: byte) {
    forall p | p in parts :: b !in p
  }

  lemma {:induction false} SplitPart(part: seq<byte>, follow: seq<byte>, separator: byte)
    requires separator !in part
    ensures SplitOn(part + follow, separator)
            == [part + SplitOn(follow, separator)[0]] + SplitOn(follow, separator)[1..]
  {
    var rest := SplitOn(follow, separator);
    if part == [] {
      assert part + follow == follow && part + rest[0] == rest[0];
      assert rest == [rest[0]] + rest[1..];
    } else {
      SplitPart(part[1..], follow, separator);
      assert (part + follow)[1..] == part[1..] + follow;
      assert part == [part[0]] + part[1..];
      assert [part[0]] + (part[1..] + rest[0]) == part + rest[0];
    }
  }

  /** Cutting a joined list at the separator gives the list back. */
  lemma {:induction false} SplitJoined(parts: seq<seq<byte>>, separator: byte)
    requires parts != [] && Free(parts, separator)
    ensures SplitOn(Join(parts, separator), separator) == parts
  {
    if |parts| == 1 {
      SplitPart(parts[0], [], separator);
      assert parts[0] + [] == parts[0];
      assert parts == [parts[0]];
    } else {
      var rest := Join(parts[1..], separator);
      SplitJoined(parts[1..], separator);
      SplitPart(parts[0], [separator] + rest, separator);
      assert ([separator] + rest)[1..] == rest;
      assert SplitOn([separator] + rest, separator) == [[]] + parts[1..];
      assert parts[0] + [] == parts[0] && ([[]] + parts[1..])[1..] == parts[1..];
      assert parts == [parts[0]] + parts[1..];
    }
  }

  /** And joining what was cut gives the text back: the two are inverse to each other. */
  lemma {:induction false} JoinedSplit(s: seq<byte>, separator: byte)
    ensures Join(SplitOn(s, separator), separator) == s && Free(SplitOn(s, separator), separator)
  {
    if s != [] {
      JoinedSplit(s[1..], separator);
      var rest := SplitOn(s[1..], separator);
      assert s == [s[0]] + s[1..];
      hide Join, Free;
      if s[0] == separator {
        JoinEmptyFirst(rest, separator);
      } else {
        JoinLongerFirst(s[0], rest, separator);
      }
    }
  }

  lemma JoinEmptyFirst(parts: seq<seq<byte>>, separator: byte)
    requires parts != [] && Free(parts, separator)
    ensures Join([[]] + parts, separator) == [separator] + Join(parts, separator)
    ensures Free([[]] + parts, separator)
  {
    assert ([[]] + parts)[1..] == parts;
    assert [] + ([separator] + Join(parts, separator)) == [separator] + Join(parts, separator);
  }

  lemma JoinLongerFirst(b: byte, parts: seq<seq<byte>>, separator: byte)
    requires parts != [] && Free(parts, separator) && b != separator
    ensures var longer := [[b] + parts[0]] + parts[1..];
            Join(longer, separator) == [b] + Join(parts, separator) && Free(longer, separator)
  {
    var longer := [[b] + parts[0]] + parts[1..];
    assert longer[1..] == parts[1..];
    if |parts| > 1 {
      Assoc([b], parts[0], [separator] + Join(parts[1..], separator));
    }
    assert parts[0] in parts;
    forall p | p in longer ensures separator !in p {
      assert p == [b] + parts[0] || p in parts;
    }
  }

  // ----- Lines -----

  /** The lines of some output; a last line break does not begin another line. */
  function SplitLines(text: seq<byte>): seq<seq<byte>> {
    if text == [] then []
    else if text[|text| - 1] == LF then SplitOn(text[..|text| - 1], LF)
    else SplitOn(text, LF)
  }

  /** Every line with its line break. */
  function RenderLines(lines: seq<seq<byte>>): seq<byte> {
    if lines == [] then [] else lines[0] + ([LF] + RenderLines(lines[1..]))
  }

  lemma {:induction false} RenderedIsJoined(lines: seq<seq<byte>>)
    requires lines != []
    ensures RenderLines(lines) == Join(lines, LF) + [LF]
  {
    if |lines| == 1 {
      assert RenderLines(lines[1..]) == [];
    } else {
      RenderedIsJoined(lines[1..]);
      assert lines[0] + ([LF] + (Join(lines[1..], LF) + [LF])) == (lines[0] + ([LF] + Join(lines[1..], LF))) + [LF];
    }
  }

  /** Any list of lines, also none and empty ones, is read back as it was written. */
  lemma SplitRendered(lines: seq<seq<byte>>)
    requires Free(lines, LF)
    ensures SplitLines(RenderLines(lines)) == lines
  {
    if lines != [] {
      RenderedIsJoined(lines);
      var text := RenderLines(lines);
      assert text[..|text| - 1] == Join(lines, LF);
      SplitJoined(lines, LF);
    }
  }
}
