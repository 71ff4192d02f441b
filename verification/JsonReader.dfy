// A reader for the JSON objects whose members are all strings: the object grammar of section 4 and
// the string grammar of section 7 of RFC 8259, with the whitespace of section 2.

module JsonReader {
  import opened LogLevels

  datatype Parsed<+T> = Parsed(value: T, rest: string)

  type Pair = (string, string)

  predicate IsWhitespace(c: char) {
    c == ' ' || c == '\t' || c == '\n' || c == '\r'
  }

  function SkipWhitespace(s: string): (r: string)
    ensures |r| <= |s|
  {
    if s != "" && IsWhitespace(s[0]) then SkipWhitespace(s[1..]) else s
  }

  function HexValue(c: char): Option<nat> {
    if '0' <= c <= '9' then Some(c as nat - '0' as nat)
    else if 'a' <= c <= 'f' then Some(c as nat - 'a' as nat + 10)
    else if 'A' <= c <= 'F' then Some(c as nat - 'A' as nat + 10)
    else None
  }

  /** The character named by four hexadecimal digits; surrogate halves are not read. */
  function HexQuad(s: string): (r: Option<Parsed<char>>)
    ensures r.Some? ==> |s| >= 4 && r.value.rest == s[4..]
  {
    if |s| < 4 then None
    else
      match (HexValue(s[0]), HexValue(s[1]), HexValue(s[2]), HexValue(s[3]))
      case (Some(a), Some(b), Some(c), Some(d)) =>
        var code := ((a * 16 + b) * 16 + c) * 16 + d;
        if 0xD800 <= code < 0xE000 then None else Some(Parsed(code as char, s[4..]))
      case _ => None
  }

  /** One escape sequence, after its backslash. */
  function ReadEscape(s: string): (r: Option<Parsed<char>>)
    ensures r.Some? ==> |r.value.rest| < |s|
  {
    if s == "" then None
    else if s[0] == '"' then Some(Parsed('"', s[1..]))
    else if s[0] == '\\' then Some(Parsed('\\', s[1..]))
    else if s[0] == '/' then Some(Parsed('/', s[1..]))
    else if s[0] == 'b' then Some(Parsed('\U{8}', s[1..]))
    else if s[0] == 'f' then Some(Parsed('\U{C}', s[1..]))
    else if s[0] == 'n' then Some(Parsed('\n', s[1..]))
    else if s[0] == 'r' then Some(Parsed('\r', s[1..]))
    else if s[0] == 't' then Some(Parsed('\t', s[1..]))
    else if s[0] == 'u' then HexQuad(s[1..])
    else None
  }

  /** The characters of a string, after its opening quotation mark and up to the closing one. */
  function ReadChars(s: string): (r: Option<Parsed<string>>)
    ensures r.Some? ==> |r.value.rest| < |s|
    decreases |s|
  {
    if s == "" then None
    else if s[0] == '"' then Some(Parsed("", s[1..]))
    else if s[0] == '\\' then
      match ReadEscape(s[1..])
      case None => None
      case Some(c) =>
        match ReadChars(c.rest)
        case None => None
        case Some(t) => Some(Parsed([c.value] + t.value, t.rest))
    else if s[0] < '\U{20}' then None
    else
      match ReadChars(s[1..])
      case None => None
      case Some(t) => Some(Parsed([s[0]] + t.value, t.rest))
  }

  function ReadString(s: string): (r: Option<Parsed<string>>)
    ensures r.Some? ==> |r.value.rest| < |s|
  {
    if s != "" && s[0] == '"' then ReadChars(s[1..]) else None
  }

  /** A required structural character with whitespace around it. */
  function ReadToken(s: string, c: char): (r: Option<string>)
    ensures r.Some? ==> |r.value| < |s|
  {
    var t := SkipWhitespace(s);
    if t != "" && t[0] == c then Some(SkipWhitespace(t[1..])) else None
  }

  function ReadMember(s: string): (r: Option<Parsed<Pair>>)
    ensures r.Some? ==> |r.value.rest| < |s|
  {
    match ReadString(s)
    case None => None
    case Some(key) =>
      match ReadToken(key.rest, ':')
      case None => None
      case Some(after) =>
        match ReadString(after)
        case None => None
        case Some(value) => Some(Parsed((key.value, value.value), value.rest))
  }

  /** One or more members and the closing brace. */
  function ReadMembers(s: string): (r: Option<Parsed<seq<Pair>>>)
    decreases |s|
  {
    match ReadMember(s)
    case None => None
    case Some(member) =>
      match ReadToken(member.rest, ',')
      case Some(after) =>
        (match ReadMembers(after)
         case None => None
         case Some(others) => Some(Parsed([member.value] + others.value, others.rest)))
      case None =>
        match ReadToken(member.rest, '}')
        case None => None
        case Some(after) => Some(Parsed([member.value], after))
  }

  /** A whole text: one object and nothing else. */
  function ReadObject(s: string): Option<seq<Pair>> {
    match ReadToken(s, '{')
    case None => None
    case Some(inside) =>
      if inside != "" && inside[0] == '}' then
        if SkipWhitespace(inside[1..]) == "" then Some([]) else None
      else
        match ReadMembers(inside)
        case None => None
        case Some(members) => if members.rest == "" then Some(members.value) else None
  }

  /** The usual decoding of repeated keys: the last one wins. */
  function LastWins(pairs: seq<Pair>): map<string, string> {
    if pairs == [] then map[]
    else LastWins(pairs[..|pairs| - 1])[pairs[|pairs| - 1].0 := pairs[|pairs| - 1].1]
  }
}
