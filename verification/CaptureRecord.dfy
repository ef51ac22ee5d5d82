/** The records a capture asks tmux for: fields that tmux escapes by five substitutions, joined by bars. */
module CaptureRecord {
  import opened Bytes
  import opened Wrappers

  const PERCENT: byte := 37
  const SEPARATOR: byte := 124
  const TAB: byte := 9
  const CR: byte := 13

  // ----- What tmux is asked to do -----

  /** One substitution: every occurrence of a byte is replaced. */
  function Substitute(s: seq<byte>, b: byte, replacement: seq<byte>): seq<byte> {
    if s == [] then []
    else (if s[0] == b then replacement else [s[0]]) + Substitute(s[1..], b, replacement)
  }

  /** The five substitutions in the order of the format string. */
  function Escape(s: seq<byte>): seq<byte> {
    var percent := Substitute(s, PERCENT, [37, 50, 53]);
    var bar := Substitute(percent, SEPARATOR, [37, 55, 67]);
    var tab := Substitute(bar, TAB, [37, 48, 57]);
    var newline := Substitute(tab, LF, [37, 48, 65]);
    Substitute(newline, CR, [37, 48, 68])
  }

  // ----- What that amounts to -----

  function EncodeByte(b: byte): seq<byte> {
    if b == PERCENT then [37, 50, 53]
    else if b == SEPARATOR then [37, 55, 67]
    else if b == TAB then [37, 48, 57]
    else if b == LF then [37, 48, 65]
    else if b == CR then [37, 48, 68]
    else [b]
  }

  function Encode(s: seq<byte>): seq<byte> {
    if s == [] then [] else EncodeByte(s[0]) + Encode(s[1..])
  }

  lemma {:induction false} SubstituteAppend(s: seq<byte>, t: seq<byte>, b: byte, replacement: seq<byte>)
    ensures Substitute(s + t, b, replacement) == Substitute(s, b, replacement) + Substitute(t, b, replacement)
  {
    if s == [] {
      assert s + t == t;
    } else {
      SubstituteAppend(s[1..], t, b, replacement);
      assert (s + t)[1..] == s[1..] + t && (s + t)[0] == s[0];
      Assoc(if s[0] == b then replacement else [s[0]], Substitute(s[1..], b, replacement),
        Substitute(t, b, replacement));
    }
  }

  lemma {:induction false} SubstituteAbsent(s: seq<byte>, b: byte, replacement: seq<byte>)
    requires b !in s
    ensures Substitute(s, b, replacement) == s
  {
    if s != [] {
      SubstituteAbsent(s[1..], b, replacement);
    }
  }

  lemma EscapeAppend(s: seq<byte>, t: seq<byte>)
    ensures Escape(s + t) == Escape(s) + Escape(t)
  {
    var s1, t1 := Substitute(s, PERCENT, [37, 50, 53]), Substitute(t, PERCENT, [37, 50, 53]);
    var s2, t2 := Substitute(s1, SEPARATOR, [37, 55, 67]), Substitute(t1, SEPARATOR, [37, 55, 67]);
    var s3, t3 := Substitute(s2, TAB, [37, 48, 57]), Substitute(t2, TAB, [37, 48, 57]);
    var s4, t4 := Substitute(s3, LF, [37, 48, 65]), Substitute(t3, LF, [37, 48, 65]);
    SubstituteAppend(s, t, PERCENT, [37, 50, 53]);
    SubstituteAppend(s1, t1, SEPARATOR, [37, 55, 67]);
    SubstituteAppend(s2, t2, TAB, [37, 48, 57]);
    SubstituteAppend(s3, t3, LF, [37, 48, 65]);
    SubstituteAppend(s4, t4, CR, [37, 48, 68]);
  }

  lemma SubstituteOne(b: byte, other: byte, replacement: seq<byte>)
    ensures Substitute([b], other, replacement) == if b == other then replacement else [b]
  {
    assert Substitute([], other, replacement) == [];
  }

  /** No later substitution touches what an earlier one wrote. */
  lemma EscapeByte(b: byte)
    ensures Escape([b]) == EncodeByte(b)
  {
    hide Substitute;
    SubstituteOne(b, PERCENT, [37, 50, 53]);
    SubstituteOne(b, SEPARATOR, [37, 55, 67]);
    SubstituteOne(b, TAB, [37, 48, 57]);
    SubstituteOne(b, LF, [37, 48, 65]);
    SubstituteOne(b, CR, [37, 48, 68]);
    if b == PERCENT {
      SubstituteAbsent([37, 50, 53], SEPARATOR, [37, 55, 67]);
    }
    var bar := if b == PERCENT then [37, 50, 53] else if b == SEPARATOR then [37, 55, 67] else [b];
    if b == PERCENT || b == SEPARATOR {
      SubstituteAbsent(bar, TAB, [37, 48, 57]);
    }
    var tab := if b == TAB then [37, 48, 57] else bar;
    if b == PERCENT || b == SEPARATOR || b == TAB {
      SubstituteAbsent(tab, LF, [37, 48, 65]);
    }
    var newline := if b == LF then [37, 48, 65] else tab;
    if b == PERCENT || b == SEPARATOR || b == TAB || b == LF {
      SubstituteAbsent(newline, CR, [37, 48, 68]);
    }
  }

  /** The five substitutions one after the other are the encoding of every byte by itself. */
  lemma {:induction false} EscapeIsEncode(s: seq<byte>)
    ensures Escape(s) == Encode(s)
  {
    if s != [] {
      EscapeIsEncode(s[1..]);
      EscapeByte(s[0]);
      EscapeAppend([s[0]], s[1..]);
      assert s == [s[0]] + s[1..];
    }
  }

  /** An encoded field has no separator and no line break in it, nor any other byte that is escaped. */
  lemma {:induction false} EncodedIsPlain(s: seq<byte>)
    ensures SEPARATOR !in Encode(s) && LF !in Encode(s) && TAB !in Encode(s) && CR !in Encode(s)
  {
    if s != [] {
      EncodedIsPlain(s[1..]);
    }
  }

  // ----- Decoding -----

  predicate IsHex(b: byte) {
    48 <= b <= 57 || 97 <= b <= 102 || 65 <= b <= 70
  }

  function HexValue(b: byte): (v: byte)
    requires IsHex(b)
    ensures v < 16
  {
    if b <= 57 then b - 48 else if b <= 70 then b - 55 else b - 87
  }

  /** Two characters read as a hexadecimal number; a leading plus sign is allowed. */
  function HexPair(a: byte, b: byte): Option<byte> {
    if a == PLUS then (if IsHex(b) then Some(HexValue(b)) else None)
    else if IsHex(a) && IsHex(b) then Some(16 * HexValue(a) + HexValue(b))
    else None
  }

  function Decode(s: seq<byte>): Option<seq<byte>>
    decreases |s|
  {
    if s == [] then Some([])
    else if s[0] != PERCENT then
      var rest := Decode(s[1..]);
      if rest.None? then None else Some([s[0]] + rest.value)
    else if |s| < 3 || HexPair(s[1], s[2]).None? then None
    else
      var rest := Decode(s[3..]);
      if rest.None? then None else Some([HexPair(s[1], s[2]).value] + rest.value)
  }

  datatype DecodeError = TruncatedEscape | InvalidEscape

  /** Decodes one field; the index moves over plain bytes one at a time and over escapes three at a time. */
  method PercentDecode(input: seq<byte>) returns (r: Result<seq<byte>, DecodeError>)
    ensures match Decode(input) case Some(output) => r == Ok(output) case None => r.Err?
  {
    var output: seq<byte> := [];
    var index := 0;
    while index < |input|
      invariant 0 <= index <= |input|
      invariant Decode(input).Some? <==> Decode(input[index..]).Some?
      invariant Decode(input).Some? ==> Decode(input).value == output + Decode(input[index..]).value
    {
      ghost var rest := input[index..];
      assert rest[1..] == input[index + 1..];
      if input[index] != PERCENT {
        assert Decode(rest).Some?
          ==> output + Decode(rest).value == (output + [input[index]]) + Decode(rest[1..]).value;
        output := output + [input[index]];
        index := index + 1;
        continue;
      }
      if index + 3 > |input| {
        return Err(TruncatedEscape);
      }
      var value := HexPair(input[index + 1], input[index + 2]);
      if value.None? {
        return Err(InvalidEscape);
      }
      assert rest[3..] == input[index + 3..];
      assert Decode(rest).Some? ==> output + Decode(rest).value == (output + [value.value]) + Decode(rest[3..]).value;
      output := output + [value.value];
      index := index + 3;
    }
    assert input[index..] == [] && output + [] == output;
    return Ok(output);
  }

  lemma DecodeByte(b: byte, follow: seq<byte>)
    ensures Decode(EncodeByte(b) + follow)
            == match Decode(follow) case Some(rest) => Some([b] + rest) case None => None
  {
    var s := EncodeByte(b) + follow;
    if |EncodeByte(b)| == 3 {
      assert s[3..] == follow;
      assert s[1] == EncodeByte(b)[1] && s[2] == EncodeByte(b)[2];
    } else {
      assert s[1..] == follow;
    }
  }

  /** Every byte string survives. */
  lemma {:induction false} DecodeEncoded(s: seq<byte>)
    ensures Decode(Encode(s)) == Some(s)
  {
    if s != [] {
      DecodeEncoded(s[1..]);
      DecodeByte(s[0], Encode(s[1..]));
      assert s == [s[0]] + s[1..];
    }
  }

  // ----- Records -----

  function EncodeAll(fields: seq<seq<byte>>): seq<seq<byte>> {
    seq(|fields|, i requires 0 <= i < |fields| => Encode(fields[i]))
  }

  /** A record as tmux prints it. */
  function PrintRecord(fields: seq<seq<byte>>): seq<byte> {
    Join(EncodeAll(fields), SEPARATOR)
  }

  function DecodeFields(parts: seq<seq<byte>>): Option<seq<seq<byte>>> {
    if parts == [] then Some([])
    else
      var first, rest := Decode(parts[0]), DecodeFields(parts[1..]);
      if first.None? || rest.None? then None else Some([first.value] + rest.value)
  }

  function ParseRecord(line: seq<byte>): Option<seq<seq<byte>>> {
    DecodeFields(SplitOn(line, SEPARATOR))
  }

  lemma {:induction false} DecodeEncodedFields(fields: seq<seq<byte>>)
    ensures DecodeFields(EncodeAll(fields)) == Some(fields)
  {
    if fields != [] {
      DecodeEncoded(fields[0]);
      DecodeEncodedFields(fields[1..]);
      assert EncodeAll(fields)[1..] == EncodeAll(fields[1..]);
      assert fields == [fields[0]] + fields[1..];
    }
  }

  lemma EncodedIsFree(fields: seq<seq<byte>>)
    ensures Free(EncodeAll(fields), SEPARATOR) && Free(EncodeAll(fields), LF)
  {
    forall p | p in EncodeAll(fields) ensures SEPARATOR !in p && LF !in p {
      var i :| 0 <= i < |fields| && EncodeAll(fields)[i] == p;
      EncodedIsPlain(fields[i]);
    }
  }

  /** Parsing a printed record gives exactly its fields, whatever bytes they hold. */
  lemma RecordRoundTrip(fields: seq<seq<byte>>)
    requires fields != []
    ensures ParseRecord(PrintRecord(fields)) == Some(fields)
  {
    EncodedIsFree(fields);
    SplitJoined(EncodeAll(fields), SEPARATOR);
    DecodeEncodedFields(fields);
  }

  lemma {:induction false} JoinFree(parts: seq<seq<byte>>, separator: byte, b: byte)
    requires Free(parts, b) && b != separator
    ensures b !in Join(parts, separator)
  {
    if |parts| > 1 {
      JoinFree(parts[1..], separator, b);
    }
  }

  // ----- Whole outputs -----

  function PrintRecords(records: seq<seq<seq<byte>>>): seq<seq<byte>> {
    seq(|records|, i requires 0 <= i < |records| => PrintRecord(records[i]))
  }

  /** A whole table of records survives being printed, sent as lines, cut into lines and parsed. */
  lemma TableRoundTrip(records: seq<seq<seq<byte>>>)
    requires forall r | r in records :: r != []
    ensures var lines := SplitLines(RenderLines(PrintRecords(records)));
            && |lines| == |records|
            && forall i | 0 <= i < |records| :: ParseRecord(lines[i]) == Some(records[i])
  {
    var printed := PrintRecords(records);
    forall p | p in printed ensures LF !in p {
      var i :| 0 <= i < |records| && printed[i] == p;
      EncodedIsFree(records[i]);
      JoinFree(EncodeAll(records[i]), SEPARATOR, LF);
    }
    SplitRendered(printed);
    forall i | 0 <= i < |records| ensures ParseRecord(printed[i]) == Some(records[i]) {
      assert records[i] in records;
      RecordRoundTrip(records[i]);
    }
  }
}
