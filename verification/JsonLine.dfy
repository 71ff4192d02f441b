// The line builder of the structured JSON sink. A text is a sequence of bytes, written as the
// characters with codes 0 to 255.

module JsonLine {
  import opened LogLevels
  import opened JsonReader

  type Byte = c: char | c as int < 256 witness ' '

  type Bytes = seq<Byte>

  type Pair = (Bytes, Bytes)

  predicate IsAscii(s: string) {
    forall i :: 0 <= i < |s| ==> s[i] as int < 128
  }

  // ---------- Printing ----------

  function HexDigit(n: nat): (c: char)
    requires n < 16
    ensures HexValue(c) == Some(n)
    ensures c != '"' && c != '\\' && '\U{20}' <= c < '\U{7F}'
  {
    if n < 10 then (n + '0' as nat) as char else (n - 10 + 'a' as nat) as char
  }

  function HexByte(c: Byte): string {
    [HexDigit(c as nat / 16), HexDigit(c as nat % 16)]
  }

  /** One byte, escaped. Where char is signed a byte above 127 is negative, hence below 32,
      and prints as the eight hexadecimal digits of its 32-bit value. */
  function EscapeChar(c: Byte): string {
    if c == '"' then "\\\""
    else if c == '\\' then "\\\\"
    else if c == '\U{8}' then "\\b"
    else if c == '\U{C}' then "\\f"
    else if c == '\n' then "\\n"
    else if c == '\r' then "\\r"
    else if c == '\t' then "\\t"
    else if c as int < 32 then "\\u00" + HexByte(c)
    else if c as int >= 128 then "\\uffffff" + HexByte(c)
    else [c]
  }

  function Escaped(s: Bytes): string {
    if s == "" then "" else EscapeChar(s[0]) + Escaped(s[1..])
  }

  method EscapeJsonString(str: Bytes) returns (result: string)
    ensures result == Escaped(str)
  {
    result := "";
    for i := 0 to |str|
      invariant result + Escaped(str[i..]) == Escaped(str)
    {
      assert str[i..][0] == str[i] && str[i..][1..] == str[i + 1..];
      assert result + (EscapeChar(str[i]) + Escaped(str[i + 1..])) == result + EscapeChar(str[i]) + Escaped(str[i + 1..]);
      result := result + EscapeChar(str[i]);
    }
  }

  function MemberText(key: string, value: string): string {
    "\"" + key + "\":\"" + value + "\""
  }

  function Member(p: Pair): string {
    MemberText(Escaped(p.0), Escaped(p.1))
  }

  /** Members after the first, each with its comma. */
  function MoreMembers(pairs: seq<Pair>): string {
    if pairs == [] then "" else ("," + Member(pairs[0])) + MoreMembers(pairs[1..])
  }

  function FixedPairs(timestamp: Bytes, level: LogLevel, logger: Bytes, message: Bytes): seq<Pair> {
    [("timestamp", timestamp), ("level", ToString(level)), ("logger", logger), ("message", message)]
  }

  /** The pairs a line prints: four fixed ones, the sink's context, the thread's context, the fields. */
  function Printed(timestamp: Bytes, level: LogLevel, logger: Bytes, message: Bytes,
                   context: seq<Pair>, thread: seq<Pair>, fields: seq<Pair>): (pairs: seq<Pair>)
    ensures |pairs| > 0
  {
    FixedPairs(timestamp, level, logger, message) + context + thread + fields
  }

  function Line(pairs: seq<Pair>): string
    requires |pairs| > 0
  {
    "{" + Member(pairs[0]) + MoreMembers(pairs[1..]) + "}"
  }

  /** The content after writing the records, each with its line end. */
  function FileOf(records: seq<seq<Pair>>): string
    requires forall r :: r in records ==> |r| > 0
  {
    if records == [] then "" else Line(records[0]) + ("\n" + FileOf(records[1..]))
  }

  lemma {:induction false} FileGrows(records: seq<seq<Pair>>, record: seq<Pair>)
    requires |record| > 0 && forall r :: r in records ==> |r| > 0
    ensures FileOf(records + [record]) == FileOf(records) + Line(record) + "\n"
  {
    if records == [] {
      assert [] + [record] == [record];
      assert [record][1..] == [];
      assert FileOf([]) == "" && Line(record) + ("\n" + "") == "" + Line(record) + "\n";
    } else {
      assert (records + [record])[1..] == records[1..] + [record];
      FileGrows(records[1..], record);
      Assoc(Line(records[0]) + ("\n" + FileOf(records[1..])), Line(record), "\n");
      Assoc(FileOf(records[1..]), Line(record), "\n");
      Assoc("\n", FileOf(records[1..]), Line(record) + "\n");
      Assoc(Line(records[0]), "\n" + FileOf(records[1..]), Line(record) + "\n");
    }
  }

  /** Text that escaping leaves alone, such as a formatted time. */
  predicate IsPlain(s: string) {
    forall i :: 0 <= i < |s| ==> 32 <= s[i] as int < 128 && s[i] != '"' && s[i] != '\\'
  }

  /** `pairs` lists the map in some order, as iterating over it does. */
  ghost predicate Lists(pairs: seq<Pair>, m: map<string, string>) {
    && (forall i, j :: 0 <= i < j < |pairs| ==> pairs[i].0 != pairs[j].0)
    && LastWins(pairs) == m
  }

  class StructuredJsonSink {
    var is_open: bool
    var global_context: map<string, string>
    /** The file's content, and the records it holds. */
    var file: string
    ghost var records: seq<seq<Pair>>

    ghost predicate Valid()
      reads this
    {
      (forall r :: r in records ==> |r| > 0) && file == FileOf(records)
    }

    constructor (opens: bool)
      ensures Valid() && is_open == opens && global_context == map[] && file == "" && records == []
    {
      is_open, global_context, file, records := opens, map[], "", [];
    }

    method SetContext(key: Bytes, value: Bytes)
      modifies this`global_context
      ensures global_context == old(global_context)[key := value]
    {
      global_context := global_context[key := value];
    }

    method ClearContext()
      modifies this`global_context
      ensures global_context == map[]
    {
      global_context := map[];
    }

    /** `context` is the order in which the sink's own context is walked. */
    method BuildJson(timestamp: Bytes, logger: Bytes, level: LogLevel, message: Bytes,
                     context: seq<Pair>, thread: seq<Pair>, fields: seq<Pair>)
      returns (json: string)
      requires IsPlain(timestamp) && Lists(context, global_context)
      ensures json == Line(Printed(timestamp, level, logger, message, context, thread, fields))
    {
      json := "{" + MemberText("timestamp", timestamp);
      json := json + ("," + MemberText("level", ToString(level)));
      var escaped := EscapeJsonString(logger);
      json := json + ("," + MemberText("logger", escaped));
      escaped := EscapeJsonString(message);
      json := json + ("," + MemberText("message", escaped));
      FixedMembers(timestamp, level, logger, message);
      json := AppendMembers(json, context);
      json := AppendMembers(json, thread);
      json := AppendMembers(json, fields);
      json := json + "}";
      LineInParts(timestamp, level, logger, message, context, thread, fields);
    }

    method LogWithFields(timestamp: Bytes, logger: Bytes, level: LogLevel, message: Bytes,
                         context: seq<Pair>, thread: seq<Pair>, fields: seq<Pair>)
      requires Valid() && IsPlain(timestamp) && Lists(context, global_context)
      modifies this`file, this`records
      ensures Valid()
      ensures var record := Printed(timestamp, level, logger, message, context, thread, fields);
              && records == old(records) + (if is_open then [record] else [])
              && file == (if is_open then old(file) + Line(record) + "\n" else old(file))
    {
      if is_open {
        var json_line := BuildJson(timestamp, logger, level, message, context, thread, fields);
        WriteLine(json_line, Printed(timestamp, level, logger, message, context, thread, fields));
      }
    }

    /** One line goes to the file, with its line end. */
    method WriteLine(json_line: string, ghost record: seq<Pair>)
      requires Valid() && |record| > 0 && json_line == Line(record)
      modifies this`file, this`records
      ensures Valid()
      ensures records == old(records) + [record] && file == old(file) + Line(record) + "\n"
    {
      FileGrows(records, record);
      file := file + json_line + "\n";
      records := records + [record];
    }
  }

  method AppendMembers(json: string, pairs: seq<Pair>) returns (r: string)
    ensures r == json + MoreMembers(pairs)
  {
    r := json;
    for i := 0 to |pairs|
      invariant r + MoreMembers(pairs[i..]) == json + MoreMembers(pairs)
    {
      var key := EscapeJsonString(pairs[i].0);
      var value := EscapeJsonString(pairs[i].1);
      assert pairs[i..][0] == pairs[i] && pairs[i..][1..] == pairs[i + 1..];
      Assoc(r, "," + Member(pairs[i]), MoreMembers(pairs[i + 1..]));
      r := r + ("," + MemberText(key, value));
    }
  }

  lemma Assoc(a: string, b: string, c: string)
    ensures (a + b) + c == a + (b + c)
  {
  }

  lemma {:induction false} PlainUnchanged(s: Bytes)
    requires IsPlain(s)
    ensures Escaped(s) == s
  {
    if s == "" {
    } else {
      PlainUnchanged(s[1..]);
      assert EscapeChar(s[0]) == [s[0]];
    }
  }

  /** Four members whose keys need no escaping. */
  lemma PlainKeys(a: Pair, b: Pair, c: Pair, d: Pair)
    requires IsPlain(a.0) && IsPlain(b.0) && IsPlain(c.0) && IsPlain(d.0)
    ensures "{" + MemberText(a.0, Escaped(a.1)) + ("," + MemberText(b.0, Escaped(b.1)))
            + ("," + MemberText(c.0, Escaped(c.1))) + ("," + MemberText(d.0, Escaped(d.1)))
            == "{" + Member(a) + MoreMembers([b, c, d])
  {
    PlainUnchanged(a.0);
    PlainUnchanged(b.0);
    PlainUnchanged(c.0);
    PlainUnchanged(d.0);
    MoreMembersOfThree("{" + Member(a), b, c, d);
  }

  lemma FixedKeysPlain()
    ensures IsPlain("timestamp") && IsPlain("level") && IsPlain("logger") && IsPlain("message")
  {
  }

  lemma LevelTextPlain(level: LogLevel)
    ensures Escaped(ToString(level)) == ToString(level)
  {
    PlainUnchanged(ToString(level));
  }

  /** The head of a line as the code writes it: the fixed keys and the time need no escaping. */
  lemma FixedMembers(timestamp: Bytes, level: LogLevel, logger: Bytes, message: Bytes)
    requires IsPlain(timestamp)
    ensures var fixed := FixedPairs(timestamp, level, logger, message);
            "{" + MemberText("timestamp", timestamp) + ("," + MemberText("level", ToString(level)))
            + ("," + MemberText("logger", Escaped(logger))) + ("," + MemberText("message", Escaped(message)))
            == "{" + Member(fixed[0]) + MoreMembers(fixed[1..])
  {
    var fixed := FixedPairs(timestamp, level, logger, message);
    FixedKeysPlain();
    PlainUnchanged(timestamp);
    LevelTextPlain(level);
    assert fixed[1..] == [fixed[1], fixed[2], fixed[3]];
    PlainKeys(fixed[0], fixed[1], fixed[2], fixed[3]);
  }

  lemma MoreMembersOfThree(head: string, a: Pair, b: Pair, c: Pair)
    ensures head + MoreMembers([a, b, c]) == head + ("," + Member(a)) + ("," + Member(b)) + ("," + Member(c))
  {
    var x, y, z := "," + Member(a), "," + Member(b), "," + Member(c);
    assert [a, b, c][1..] == [b, c] && [b, c][1..] == [c] && [c][1..] == [];
    assert MoreMembers([c]) == z + "" == z;
    assert MoreMembers([a, b, c]) == x + (y + z);
    Assoc(head, x, y + z);
    Assoc(head + x, y, z);
  }

  lemma {:induction false} MoreMembersAppend(head: string, a: seq<Pair>, b: seq<Pair>)
    ensures head + MoreMembers(a + b) == head + MoreMembers(a) + MoreMembers(b)
    decreases |a|
  {
    if a == [] {
      assert a + b == b && head + "" == head;
    } else {
      var x := "," + Member(a[0]);
      assert (a + b)[1..] == a[1..] + b;
      Assoc(head, x, MoreMembers(a[1..] + b));
      Assoc(head, x, MoreMembers(a[1..]));
      MoreMembersAppend(head + x, a[1..], b);
    }
  }

  lemma LineInParts(timestamp: Bytes, level: LogLevel, logger: Bytes, message: Bytes,
                    context: seq<Pair>, thread: seq<Pair>, fields: seq<Pair>)
    ensures var fixed := FixedPairs(timestamp, level, logger, message);
            Line(Printed(timestamp, level, logger, message, context, thread, fields))
            == "{" + Member(fixed[0]) + MoreMembers(fixed[1..])
               + MoreMembers(context) + MoreMembers(thread) + MoreMembers(fields) + "}"
  {
    var fixed := FixedPairs(timestamp, level, logger, message);
    var all := Printed(timestamp, level, logger, message, context, thread, fields);
    var head := "{" + Member(fixed[0]);
    RestOfPrinted(fixed, context, thread, fields);
    MoreMembersAppend(head, fixed[1..] + context + thread, fields);
    MoreMembersAppend(head, fixed[1..] + context, thread);
    MoreMembersAppend(head, fixed[1..], context);
  }

  lemma RestOfPrinted(fixed: seq<Pair>, context: seq<Pair>, thread: seq<Pair>, fields: seq<Pair>)
    requires |fixed| > 0
    ensures (fixed + context + thread + fields)[1..] == fixed[1..] + context + thread + fields
  {
  }
}
