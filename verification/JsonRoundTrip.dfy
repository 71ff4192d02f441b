// Reading back the lines of the structured JSON sink.

module JsonRoundTrip {
  import opened LogLevels
  import R = JsonReader
  import opened JsonLine

  // ---------- What a printed text reads back as ----------

  /** An ASCII byte reads back as itself; another one, printed with eight digits, as the character
      of the first four and the other four as text. */
  function Expand(c: Byte): string {
    if c as int < 128 then [c] else ['\U{FFFF}', 'f', 'f'] + HexByte(c)
  }

  function Expanded(s: Bytes): string {
    if s == "" then "" else Expand(s[0]) + Expanded(s[1..])
  }

  lemma ReadPlain(c: char, tail: string, t: string, rest: string)
    requires c >= '\U{20}' && c != '"' && c != '\\'
    requires R.ReadChars(tail) == Some(R.Parsed(t, rest))
    ensures R.ReadChars([c] + tail) == Some(R.Parsed([c] + t, rest))
  {
    assert ([c] + tail)[1..] == tail;
  }

  lemma {:induction false} ReadPlainText(word: string, tail: string, t: string, rest: string)
    requires forall i :: 0 <= i < |word| ==> word[i] >= '\U{20}' && word[i] != '"' && word[i] != '\\'
    requires R.ReadChars(tail) == Some(R.Parsed(t, rest))
    ensures R.ReadChars(word + tail) == Some(R.Parsed(word + t, rest))
    decreases |word|
  {
    if word == "" {
      assert word + tail == tail && word + t == t;
    } else {
      var first, others := [word[0]], word[1..];
      ReadPlainText(others, tail, t, rest);
      ReadPlain(word[0], others + tail, others + t, rest);
      assert word == first + others;
      Assoc(first, others, tail);
      Assoc(first, others, t);
    }
  }

  lemma ReadEscaping(e: string, code: char, tail: string, t: string, rest: string)
    requires R.ReadEscape(e) == Some(R.Parsed(code, tail))
    requires R.ReadChars(tail) == Some(R.Parsed(t, rest))
    ensures R.ReadChars("\\" + e) == Some(R.Parsed([code] + t, rest))
  {
    assert ("\\" + e)[1..] == e;
  }

  lemma ShortEscape(c: Byte, tail: string)
    requires c in ['"', '\\', '\U{8}', '\U{C}', '\n', '\r', '\t']
    ensures |EscapeChar(c)| == 2 && EscapeChar(c)[0] == '\\'
    ensures R.ReadEscape([EscapeChar(c)[1]] + tail) == Some(R.Parsed(c, tail))
  {
    assert ([EscapeChar(c)[1]] + tail)[1..] == tail;
  }

  lemma HexEscape(quad: string, code: char, tail: string)
    requires R.HexQuad(quad + tail) == Some(R.Parsed(code, tail))
    ensures R.ReadEscape("u" + (quad + tail)) == Some(R.Parsed(code, tail))
  {
    assert ("u" + (quad + tail))[1..] == quad + tail;
  }

  lemma LowControlQuad(c: Byte, tail: string)
    requires c as int < 128
    ensures R.HexQuad("00" + HexByte(c) + tail) == Some(R.Parsed(c, tail))
  {
    var s := "00" + HexByte(c) + tail;
    assert s[4..] == tail && s[0] == '0' && s[1] == '0';
    assert s[2] == HexByte(c)[0] && s[3] == HexByte(c)[1];
  }

  lemma HighByteQuad(tail: string)
    ensures R.HexQuad("ffff" + tail) == Some(R.Parsed('\U{FFFF}', tail))
  {
    assert ("ffff" + tail)[4..] == tail;
  }

  lemma ReadLowControl(c: Byte, tail: string, t: string, rest: string)
    requires c as int < 128 && R.ReadChars(tail) == Some(R.Parsed(t, rest))
    ensures R.ReadChars("\\u00" + HexByte(c) + tail) == Some(R.Parsed([c] + t, rest))
  {
    LowControlQuad(c, tail);
    HexEscape("00" + HexByte(c), c, tail);
    ReadEscaping("u" + ("00" + HexByte(c) + tail), c, tail, t, rest);
    assert "\\u00" + HexByte(c) + tail == "\\" + ("u" + ("00" + HexByte(c) + tail));
  }

  lemma ReadHighByte(c: Byte, tail: string, t: string, rest: string)
    requires c as int >= 128 && R.ReadChars(tail) == Some(R.Parsed(t, rest))
    ensures R.ReadChars(EscapeChar(c) + tail) == Some(R.Parsed(Expand(c) + t, rest))
  {
    var word := "ff" + HexByte(c);
    ReadPlainText(word, tail, t, rest);
    HighByteQuad(word + tail);
    HexEscape("ffff", '\U{FFFF}', word + tail);
    ReadEscaping("u" + ("ffff" + (word + tail)), '\U{FFFF}', word + tail, word + t, rest);
    HighByteText(c, tail);
    Assoc(['\U{FFFF}'], word, t);
    assert Expand(c) == ['\U{FFFF}'] + word;
  }

  lemma HighByteText(c: Byte, tail: string)
    requires c as int >= 128
    ensures EscapeChar(c) + tail == "\\" + ("u" + ("ffff" + ("ff" + HexByte(c) + tail)))
  {
    var word := "ff" + HexByte(c);
    assert EscapeChar(c) == "\\" + ("u" + ("ffff" + word));
    Assoc("ffff", word, tail);
    Assoc("u", "ffff" + word, tail);
    Assoc("\\", "u" + ("ffff" + word), tail);
  }

  lemma ReadOne(c: Byte, tail: string, t: string, rest: string)
    requires R.ReadChars(tail) == Some(R.Parsed(t, rest))
    ensures R.ReadChars(EscapeChar(c) + tail) == Some(R.Parsed(Expand(c) + t, rest))
  {
    if c as int >= 128 {
      ReadHighByte(c, tail, t, rest);
    } else if c in ['"', '\\', '\U{8}', '\U{C}', '\n', '\r', '\t'] {
      ShortEscape(c, tail);
      ReadEscaping([EscapeChar(c)[1]] + tail, c, tail, t, rest);
      assert EscapeChar(c) + tail == "\\" + ([EscapeChar(c)[1]] + tail);
    } else if c as int < 32 {
      ReadLowControl(c, tail, t, rest);
    } else {
      ReadPlain(c, tail, t, rest);
    }
  }

  /** Reading an escaped text up to the closing quotation mark gives its expansion. */
  lemma {:induction false} ReadEscaped(s: Bytes, rest: string)
    ensures R.ReadChars(Escaped(s) + ("\"" + rest)) == Some(R.Parsed(Expanded(s), rest))
  {
    if s == "" {
      assert "" + ("\"" + rest) == "\"" + rest && ("\"" + rest)[1..] == rest;
    } else {
      ReadEscaped(s[1..], rest);
      ReadOne(s[0], Escaped(s[1..]) + ("\"" + rest), Expanded(s[1..]), rest);
      Assoc(EscapeChar(s[0]), Escaped(s[1..]), "\"" + rest);
    }
  }

  lemma {:induction false} ExpandedIsSameIffAscii(s: Bytes)
    ensures Expanded(s) == s <==> IsAscii(s)
    ensures !IsAscii(s) ==> '\U{FFFF}' in Expanded(s)
  {
    if s == "" {
    } else {
      ExpandedIsSameIffAscii(s[1..]);
      assert s == [s[0]] + s[1..];
      if s[0] as int < 128 {
        assert Expanded(s)[1..] == Expanded(s[1..]);
      } else {
        assert Expanded(s)[0] == '\U{FFFF}';
      }
      assert IsAscii(s) <==> s[0] as int < 128 && IsAscii(s[1..]);
    }
  }

  // ---------- Members and lines ----------

  function ExpandedPair(p: Pair): R.Pair {
    (Expanded(p.0), Expanded(p.1))
  }

  function ExpandedPairs(pairs: seq<Pair>): seq<R.Pair> {
    if pairs == [] then [] else [ExpandedPair(pairs[0])] + ExpandedPairs(pairs[1..])
  }

  lemma ReadTokenHere(c: char, after: string)
    requires !R.IsWhitespace(c) && (after == "" || !R.IsWhitespace(after[0]))
    ensures R.ReadToken([c] + after, c) == Some(after)
  {
    assert ([c] + after)[1..] == after;
  }

  lemma OtherTokenAbsent(c: char, after: string, d: char)
    requires !R.IsWhitespace(c) && d != c
    ensures R.ReadToken([c] + after, d) == None
  {
  }

  lemma ReadOneMember(p: Pair, rest: string)
    ensures R.ReadMember(Member(p) + rest) == Some(R.Parsed(ExpandedPair(p), rest))
    ensures Member(p) != "" && Member(p)[0] == '"'
  {
    var key, value := Escaped(p.0), Escaped(p.1);
    var second := "\"" + (value + ("\"" + rest));
    var s := "\"" + (key + ("\"" + (":" + second)));
    MemberPieces(key, value, rest);
    assert s[1..] == key + ("\"" + (":" + second));
    ReadEscaped(p.0, ":" + second);
    ReadTokenHere(':', second);
    assert second[1..] == value + ("\"" + rest);
    ReadEscaped(p.1, rest);
  }

  lemma MemberPieces(key: string, value: string, rest: string)
    ensures MemberText(key, value) + rest == "\"" + (key + ("\"" + (":" + ("\"" + (value + ("\"" + rest))))))
  {
  }

  lemma {:induction false} ReadAllMembers(pairs: seq<Pair>)
    requires |pairs| > 0
    ensures R.ReadMembers(Member(pairs[0]) + (MoreMembers(pairs[1..]) + "}")) == Some(R.Parsed(ExpandedPairs(pairs), ""))
    decreases |pairs|
  {
    var more := pairs[1..];
    ReadOneMember(pairs[0], MoreMembers(more) + "}");
    if more == [] {
      assert MoreMembers(more) + "}" == ['}'] + "";
      ReadTokenHere('}', "");
      OtherTokenAbsent('}', "", ',');
      assert ExpandedPairs(pairs) == [ExpandedPair(pairs[0])] + [] == [ExpandedPair(pairs[0])];
    } else {
      var after := Member(more[0]) + (MoreMembers(more[1..]) + "}");
      assert MoreMembers(more) + "}" == [','] + after by {
        Assoc("," + Member(more[0]), MoreMembers(more[1..]), "}");
        Assoc(",", Member(more[0]), MoreMembers(more[1..]) + "}");
      }
      ReadOneMember(more[0], MoreMembers(more[1..]) + "}");
      assert after[0] == '"';
      ReadTokenHere(',', after);
      ReadAllMembers(more);
    }
  }

  /** Any printed line is a JSON object, and reads back as the expansion of its pairs, in order. */
  lemma LineReadsBack(pairs: seq<Pair>)
    requires |pairs| > 0
    ensures R.ReadObject(Line(pairs)) == Some(ExpandedPairs(pairs))
  {
    var inside := Member(pairs[0]) + (MoreMembers(pairs[1..]) + "}");
    assert Line(pairs) == ['{'] + inside by {
      Assoc("{", Member(pairs[0]), MoreMembers(pairs[1..]));
      Assoc("{", Member(pairs[0]) + MoreMembers(pairs[1..]), "}");
      Assoc(Member(pairs[0]), MoreMembers(pairs[1..]), "}");
    }
    ReadOneMember(pairs[0], MoreMembers(pairs[1..]) + "}");
    assert inside[0] == '"';
    ReadTokenHere('{', inside);
    ReadAllMembers(pairs);
  }

  predicate AsciiPairs(pairs: seq<Pair>) {
    forall i :: 0 <= i < |pairs| ==> IsAscii(pairs[i].0) && IsAscii(pairs[i].1)
  }

  lemma {:induction false} ExpandedPairsAt(pairs: seq<Pair>)
    ensures |ExpandedPairs(pairs)| == |pairs|
    ensures forall i :: 0 <= i < |pairs| ==> ExpandedPairs(pairs)[i] == ExpandedPair(pairs[i])
  {
    if pairs == [] {
    } else {
      ExpandedPairsAt(pairs[1..]);
    }
  }

  /** Round trip: the line reads back as exactly the printed pairs, in order, if and only if all of
      them are ASCII. */
  lemma RoundTripIffAscii(pairs: seq<Pair>)
    requires |pairs| > 0
    ensures R.ReadObject(Line(pairs)) == Some(pairs) <==> AsciiPairs(pairs)
  {
    LineReadsBack(pairs);
    ExpandedPairsAt(pairs);
    forall i | 0 <= i < |pairs|
      ensures ExpandedPairs(pairs)[i] == pairs[i] <==> IsAscii(pairs[i].0) && IsAscii(pairs[i].1)
    {
      ExpandedIsSameIffAscii(pairs[i].0);
      ExpandedIsSameIffAscii(pairs[i].1);
    }
    if AsciiPairs(pairs) {
      assert ExpandedPairs(pairs) == pairs;
    }
  }

  // ---------- One record, one line ----------

  predicate Printable(s: string) {
    forall i :: 0 <= i < |s| ==> 32 <= s[i] as int < 128
  }

  lemma {:induction false} EscapedPrintable(s: Bytes)
    ensures Printable(Escaped(s))
  {
    if s == "" {
    } else {
      EscapedPrintable(s[1..]);
      assert Printable(EscapeChar(s[0]));
    }
  }

  lemma MemberPrintable(p: Pair)
    ensures Printable(Member(p))
  {
    EscapedPrintable(p.0);
    EscapedPrintable(p.1);
    var key, value := Escaped(p.0), Escaped(p.1);
    assert Printable("\"" + key) && Printable("\":\"" + value + "\"");
    assert MemberText(key, value) == ("\"" + key) + ("\":\"" + value + "\"");
  }

  lemma {:induction false} MoreMembersPrintable(pairs: seq<Pair>)
    ensures Printable(MoreMembers(pairs))
  {
    if pairs == [] {
    } else {
      MemberPrintable(pairs[0]);
      assert Printable("," + Member(pairs[0]));
      MoreMembersPrintable(pairs[1..]);
    }
  }

  /** Whatever the bytes, a line holds no control character and nothing beyond ASCII. */
  lemma LinePrintable(pairs: seq<Pair>)
    requires |pairs| > 0
    ensures Printable(Line(pairs))
  {
    MemberPrintable(pairs[0]);
    MoreMembersPrintable(pairs[1..]);
    assert Printable("{" + Member(pairs[0]));
    assert Printable("{" + Member(pairs[0]) + MoreMembers(pairs[1..]));
  }

  /** The complete lines of a file. */
  function SplitLines(s: string): seq<string> {
    var end := LineEnd(s);
    if end < |s| then [s[..end]] + SplitLines(s[end + 1..]) else []
  }

  function LineEnd(s: string): (n: nat)
    ensures n <= |s| && (n < |s| ==> s[n] == '\n') && '\n' !in s[..n]
  {
    if s == "" || s[0] == '\n' then 0
    else
      var n := 1 + LineEnd(s[1..]);
      assert s[..n] == [s[0]] + s[1..][..n - 1];
      n
  }

  lemma {:induction false} LineEndIs(s: string, k: nat)
    requires k < |s| && s[k] == '\n' && '\n' !in s[..k]
    ensures LineEnd(s) == k
    decreases k
  {
    if k == 0 {
    } else {
      assert s[0] == s[..k][0];
      assert s[1..][..k - 1] == s[..k][1..];
      LineEndIs(s[1..], k - 1);
    }
  }

  lemma FirstLine(line: string, rest: string)
    requires Printable(line)
    ensures SplitLines(line + ("\n" + rest)) == [line] + SplitLines(rest)
  {
    var s := line + ("\n" + rest);
    assert s[..|line|] == line && s[|line| + 1..] == rest;
    LineEndIs(s, |line|);
  }

  /** One record is one line: the lines of the sink's file are the records logged so far, read back
      one by one. */
  lemma {:induction false} RecordsAreLines(records: seq<seq<Pair>>)
    requires forall r :: r in records ==> |r| > 0
    ensures |SplitLines(FileOf(records))| == |records|
    ensures forall i :: 0 <= i < |records| ==>
              R.ReadObject(SplitLines(FileOf(records))[i]) == Some(ExpandedPairs(records[i]))
    decreases |records|
  {
    if records == [] {
    } else {
      LinePrintable(records[0]);
      FirstLine(Line(records[0]), FileOf(records[1..]));
      LineReadsBack(records[0]);
      RecordsAreLines(records[1..]);
    }
  }

  // ---------- Precedence ----------

  lemma {:induction false} LastWinsAppend(a: seq<R.Pair>, b: seq<R.Pair>)
    ensures R.LastWins(a + b) == R.LastWins(a) + R.LastWins(b)
    decreases |b|
  {
    if b == [] {
      assert a + b == a;
    } else {
      var front := b[..|b| - 1];
      assert (a + b)[..|a + b| - 1] == a + front && (a + b)[|a + b| - 1] == b[|b| - 1];
      LastWinsAppend(a, front);
    }
  }

  lemma {:induction false} ExpandedAppend(a: seq<Pair>, b: seq<Pair>)
    ensures ExpandedPairs(a + b) == ExpandedPairs(a) + ExpandedPairs(b)
    decreases |a|
  {
    if a == [] {
      assert a + b == b;
    } else {
      assert (a + b)[1..] == a[1..] + b;
      ExpandedAppend(a[1..], b);
    }
  }

  /** Decoding a line, the last of repeated keys winning, gives the fields precedence over the thread's
      context, that over the sink's context, and all of them over the four fixed keys, each read back
      as its expansion. */
  lemma DecodingPrecedence(timestamp: Bytes, level: LogLevel, logger: Bytes, message: Bytes,
                           context: seq<Pair>, thread: seq<Pair>, fields: seq<Pair>)
    ensures var read := R.ReadObject(Line(Printed(timestamp, level, logger, message, context, thread, fields)));
            read.Some?
            && R.LastWins(read.value)
               == R.LastWins(ExpandedPairs(FixedPairs(timestamp, level, logger, message)))
                  + R.LastWins(ExpandedPairs(context)) + R.LastWins(ExpandedPairs(thread))
                  + R.LastWins(ExpandedPairs(fields))
  {
    var fixed := FixedPairs(timestamp, level, logger, message);
    var all := Printed(timestamp, level, logger, message, context, thread, fields);
    LineReadsBack(all);
    ExpandedAppend(fixed + context + thread, fields);
    ExpandedAppend(fixed + context, thread);
    ExpandedAppend(fixed, context);
    LastWinsOfFour(ExpandedPairs(fixed), ExpandedPairs(context), ExpandedPairs(thread), ExpandedPairs(fields));
  }

  lemma LastWinsOfFour(a: seq<R.Pair>, b: seq<R.Pair>, c: seq<R.Pair>, d: seq<R.Pair>)
    ensures R.LastWins(a + b + c + d) == R.LastWins(a) + R.LastWins(b) + R.LastWins(c) + R.LastWins(d)
  {
    LastWinsAppend(a + b + c, d);
    LastWinsAppend(a + b, c);
    LastWinsAppend(a, b);
  }

  lemma AsciiReadsBack(s: Bytes)
    requires IsAscii(s)
    ensures Expanded(s) == s
  {
    ExpandedIsSameIffAscii(s);
  }

  /** The printed name of each level, as a reader of the line finds it. */
  lemma LevelReadsBack(level: LogLevel)
    ensures level == Trace ==> Expanded(ToString(level)) == "TRACE"
    ensures level == Debug ==> Expanded(ToString(level)) == "DEBUG"
    ensures level == Info ==> Expanded(ToString(level)) == "INFO"
    ensures level == Warn ==> Expanded(ToString(level)) == "WARN"
    ensures level == Error ==> Expanded(ToString(level)) == "ERROR"
    ensures level == Critical ==> Expanded(ToString(level)) == "CRITICAL"
  {
    AsciiReadsBack(ToString(level));
  }

  lemma PrintedParts(timestamp: Bytes, level: LogLevel, logger: Bytes, message: Bytes,
                     context: seq<Pair>, thread: seq<Pair>, fields: seq<Pair>)
    ensures var all := Printed(timestamp, level, logger, message, context, thread, fields);
            && |all| == 4 + |context| + |thread| + |fields|
            && all[0] == ("timestamp", timestamp) && all[1] == ("level", ToString(level))
            && all[2] == ("logger", logger) && all[3] == ("message", message)
  {
  }

  lemma TimestampReadsBack()
    ensures Expanded("timestamp") == "timestamp"
  {
    AsciiReadsBack("timestamp");
  }

  lemma LevelKeyReadsBack()
    ensures Expanded("level") == "level"
  {
    AsciiReadsBack("level");
  }

  lemma LoggerReadsBack()
    ensures Expanded("logger") == "logger"
  {
    AsciiReadsBack("logger");
  }

  lemma MessageReadsBack()
    ensures Expanded("message") == "message"
  {
    AsciiReadsBack("message");
  }

  /** The four fixed members of every line, by name and in order; `LevelReadsBack` spells the level. */
  lemma FixedMembersReadBack(timestamp: Bytes, level: LogLevel, logger: Bytes, message: Bytes,
                             context: seq<Pair>, thread: seq<Pair>, fields: seq<Pair>)
    ensures var read := R.ReadObject(Line(Printed(timestamp, level, logger, message, context, thread, fields)));
            && read.Some? && |read.value| == 4 + |context| + |thread| + |fields|
            && read.value[0] == ("timestamp", Expanded(timestamp))
            && read.value[1] == ("level", Expanded(ToString(level)))
            && read.value[2] == ("logger", Expanded(logger))
            && read.value[3] == ("message", Expanded(message))
  {
    LineReadsBack(Printed(timestamp, level, logger, message, context, thread, fields));
    ExpandedPairsAt(Printed(timestamp, level, logger, message, context, thread, fields));
    PrintedParts(timestamp, level, logger, message, context, thread, fields);
    TimestampReadsBack();
    LevelKeyReadsBack();
    LoggerReadsBack();
    MessageReadsBack();
  }
}
