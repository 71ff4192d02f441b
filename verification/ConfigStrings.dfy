// The comma-separated lists of the configuration loader, which supply redaction patterns.

module ConfigStrings {
  import opened LogLevels
  import Redaction

  predicate IsBlank(c: char) {
    c == ' ' || c == '\t'
  }

  /** The lowest index holding a non-blank. */
  function FirstNonBlank(s: string): (r: Option<nat>)
    ensures r.Some? ==> r.value < |s| && !IsBlank(s[r.value]) && AllBlank(s[..r.value])
    ensures r.None? <==> AllBlank(s)
  {
    if s == "" then None
    else if !IsBlank(s[0]) then Some(0)
    else
      match FirstNonBlank(s[1..])
      case None => assert s == [s[0]] + s[1..]; None
      case Some(i) => assert s[..i + 1] == [s[0]] + s[1..][..i]; Some(i + 1)
  }

  /** The highest index holding a non-blank. */
  function LastNonBlank(s: string): (r: Option<nat>)
    ensures r.Some? ==> r.value < |s| && !IsBlank(s[r.value]) && AllBlank(s[r.value + 1..])
    ensures r.None? <==> AllBlank(s)
  {
    if s == "" then None
    else if !IsBlank(s[|s| - 1]) then Some(|s| - 1)
    else
      var front := s[..|s| - 1];
      assert s == front + [s[|s| - 1]];
      match LastNonBlank(front)
      case None => None
      case Some(i) => assert s[i + 1..] == front[i + 1..] + [s[|s| - 1]]; Some(i)
  }

  predicate AllBlank(s: string) {
    forall i :: 0 <= i < |s| ==> IsBlank(s[i])
  }

  /** A piece without its surrounding blanks, if anything remains. */
  function Trimmed(s: string): Option<string> {
    var first, last := FirstNonBlank(s), LastNonBlank(s);
    FirstBeforeLast(s);
    if first.Some? && last.Some? then Some(s[first.value..last.value + 1]) else None
  }

  /** The pieces between commas; `n` commas make `n + 1` pieces. */
  function Split(s: string): (pieces: seq<string>)
    ensures |pieces| > 0
  {
    if s == "" then [""]
    else
      var rest := Split(s[1..]);
      if s[0] == ',' then [""] + rest else [[s[0]] + rest[0]] + rest[1..]
  }

  function Join(pieces: seq<string>): string
    requires |pieces| > 0
  {
    if |pieces| == 1 then pieces[0] else pieces[0] + "," + Join(pieces[1..])
  }

  /** The trimmed pieces that are not blank, in order. */
  function Kept(pieces: seq<string>): seq<string> {
    if pieces == [] then []
    else TokenOf(pieces[0]) + Kept(pieces[1..])
  }

  function TokenOf(piece: string): seq<string> {
    match Trimmed(piece)
    case None => []
    case Some(t) => [t]
  }

  /** `current` is the unfinished piece; `rest` the text still to be read. */
  function Remaining(current: string, rest: string): (pieces: seq<string>) {
    [current + Split(rest)[0]] + Split(rest)[1..]
  }

  /** The result still to come when `rest` is unread. */
  ghost function Outcome(result: seq<string>, current: string, rest: string): seq<string> {
    result + Kept(Remaining(current, rest))
  }

  lemma CharacterRead(result: seq<string>, current: string, value: string, i: nat)
    requires i < |value| && value[i] != ','
    ensures Outcome(result, current + [value[i]], value[i + 1..]) == Outcome(result, current, value[i..])
  {
    var s := value[i..];
    assert s[1..] == value[i + 1..];
    var rest := Split(s[1..]);
    assert current + ([s[0]] + rest[0]) == current + [s[0]] + rest[0];
  }

  lemma CommaRead(result: seq<string>, current: string, value: string, i: nat, longer: seq<string>)
    requires i < |value| && value[i] == ','
    requires longer + Kept(Split(value[i + 1..])) == result + Kept([current] + Split(value[i + 1..]))
    ensures Outcome(longer, "", value[i + 1..]) == Outcome(result, current, value[i..])
  {
    var s := value[i..];
    assert s[1..] == value[i + 1..];
    var rest := Split(s[1..]);
    assert "" + rest[0] == rest[0] && rest == [rest[0]] + rest[1..];
    assert current + "" == current;
  }

  lemma NothingRead(value: string)
    ensures Outcome([], "", value[0..]) == Kept(Split(value))
  {
    var rest := Split(value);
    assert value[0..] == value && "" + rest[0] == rest[0];
    assert Remaining("", value) == rest;
  }

  lemma EverythingRead(value: string, result: seq<string>, current: string)
    ensures Outcome(result, current, value[|value|..]) == result + Kept([current] + [])
  {
    assert value[|value|..] == "" && current + "" == current;
    assert Remaining(current, "") == [current] + [];
  }

  method SplitAndTrim(value: string) returns (result: seq<string>)
    ensures result == Kept(Split(value))
  {
    result := [];
    var current := "";
    NothingRead(value);
    for i := 0 to |value|
      invariant Outcome(result, current, value[i..]) == Kept(Split(value))
    {
      if value[i] == ',' {
        var longer := AppendTrimmed(result, current, Split(value[i + 1..]));
        CommaRead(result, current, value, i, longer);
        result, current := longer, "";
      } else {
        CharacterRead(result, current, value, i);
        current := current + [value[i]];
      }
    }
    EverythingRead(value, result, current);
    result := AppendTrimmed(result, current, []);
  }

  /** The guarded trim-and-push that both ends of the loop share. */
  method AppendTrimmed(result: seq<string>, current: string, ghost later: seq<string>) returns (r: seq<string>)
    ensures r + Kept(later) == result + Kept([current] + later)
  {
    r := result;
    KeptFirst(current, later);
    FirstBeforeLast(current);
    if current != "" {
      var start, end := FirstNonBlank(current), LastNonBlank(current);
      if start.Some? && end.Some? {
        var token := current[start.value..end.value + 1];
        TokenPushed(result, token, Kept(later));
        r := r + [token];
      }
    }
  }

  lemma TokenPushed(result: seq<string>, token: string, later: seq<string>)
    ensures result + ([token] + later) == result + [token] + later
  {
  }

  lemma KeptFirst(piece: string, later: seq<string>)
    ensures Kept([piece] + later) == match Trimmed(piece) case None => Kept(later) case Some(t) => [t] + Kept(later)
  {
    assert ([piece] + later)[1..] == later;
    assert [] + Kept(later) == Kept(later);
  }

  lemma FirstBeforeLast(s: string)
    ensures FirstNonBlank(s).Some? <==> LastNonBlank(s).Some?
    ensures FirstNonBlank(s).Some? ==> FirstNonBlank(s).value <= LastNonBlank(s).value
  {
    if FirstNonBlank(s).Some? {
      assert forall k :: 0 <= k < FirstNonBlank(s).value ==> s[..FirstNonBlank(s).value][k] == s[k];
    }
  }

  // ---------- What the pieces and the tokens are ----------

  /** Splitting is undone by joining with commas, and no piece holds a comma. */
  lemma {:induction false} SplitIsExact(s: string)
    ensures Join(Split(s)) == s
    ensures forall piece :: piece in Split(s) ==> ',' !in piece
  {
    if s == "" {
    } else {
      SplitIsExact(s[1..]);
      var rest := Split(s[1..]);
      assert Split(s)[1..] == if s[0] == ',' then rest else rest[1..];
      assert s == [s[0]] + s[1..];
    }
  }

  lemma TokenParts(s: string) returns (left: string, right: string)
    requires Trimmed(s).Some?
    ensures AllBlank(left) && AllBlank(right) && s == left + Trimmed(s).value + right
  {
    FirstBeforeLast(s);
    var i, j := FirstNonBlank(s).value, LastNonBlank(s).value;
    left, right := s[..i], s[j + 1..];
    ThreeParts(s, i, j + 1);
  }

  lemma ThreeParts(s: string, i: nat, j: nat)
    requires i <= j <= |s|
    ensures s == s[..i] + s[i..j] + s[j..]
  {
  }

  lemma TokenEnds(s: string)
    requires Trimmed(s).Some?
    ensures var t := Trimmed(s).value; t != "" && !IsBlank(t[0]) && !IsBlank(t[|t| - 1])
  {
    FirstBeforeLast(s);
  }

  /** A piece is blanks, its token, blanks; a piece without a token is all blank. */
  lemma TrimIsExact(s: string)
    ensures Trimmed(s).None? ==> AllBlank(s)
    ensures Trimmed(s).Some? ==>
              var t := Trimmed(s).value;
              && t != "" && !IsBlank(t[0]) && !IsBlank(t[|t| - 1])
              && exists left, right :: AllBlank(left) && AllBlank(right) && s == left + t + right
  {
    FirstBeforeLast(s);
    if Trimmed(s).Some? {
      TokenEnds(s);
      var left, right := TokenParts(s);
    }
  }

  lemma {:induction false} KeptTokens(pieces: seq<string>, t: string)
    requires t in Kept(pieces)
    ensures exists piece :: piece in pieces && Trimmed(piece) == Some(t)
  {
    if t !in Kept(pieces[1..]) {
      assert pieces[0] in pieces;
    } else {
      KeptTokens(pieces[1..], t);
      var piece :| piece in pieces[1..] && Trimmed(piece) == Some(t);
      assert piece in pieces;
    }
  }

  /** Patterns read from any configuration string are never empty, so redaction with them ends. */
  lemma ConfiguredPatternsAreNonEmpty(value: string)
    ensures Redaction.AllNonEmpty(Kept(Split(value)))
    ensures forall t :: t in Kept(Split(value)) ==> ',' !in t
  {
    forall t | t in Kept(Split(value))
      ensures |t| > 0 && ',' !in t
    {
      KeptTokens(Split(value), t);
      var piece :| piece in Split(value) && Trimmed(piece) == Some(t);
      TrimIsExact(piece);
      SplitIsExact(value);
    }
  }

  /** A configured list whose text has no '*' is redacted completely. */
  lemma ConfiguredRedactionIsComplete(value: string, message: string)
    requires '*' !in value
    ensures Redaction.AllNonEmpty(Kept(Split(value)))
    ensures forall p :: p in Kept(Split(value)) ==> !Redaction.Contains(Redaction.Redacted(message, Kept(Split(value))), p)
  {
    ConfiguredPatternsAreNonEmpty(value);
    var patterns := Kept(Split(value));
    forall i | 0 <= i < |patterns|
      ensures !Redaction.Contains(Redaction.Redacted(message, patterns), patterns[i])
    {
      KeptTokens(Split(value), patterns[i]);
      var piece :| piece in Split(value) && Trimmed(piece) == Some(patterns[i]);
      PieceCharacters(value, piece, '*');
      Redaction.StarFreeIsGuarded(patterns, i);
      Redaction.RedactionIsComplete(message, patterns, i);
    }
  }

  lemma {:induction false} PieceCharacters(s: string, piece: string, c: char)
    requires piece in Split(s) && c !in s
    ensures c !in piece
  {
    if s == "" {
    } else {
      var rest := Split(s[1..]);
      assert s[0] in s;
      if piece in rest {
        PieceCharacters(s[1..], piece, c);
      } else if s[0] != ',' {
        PieceCharacters(s[1..], rest[0], c);
      }
    }
  }

  // ---------- Every token is kept ----------

  function Gathered(f: string -> seq<string>, pieces: seq<string>): seq<string> {
    if pieces == [] then [] else f(pieces[0]) + Gathered(f, pieces[1..])
  }

  lemma {:induction false} GatheredAppend(f: string -> seq<string>, a: seq<string>, b: seq<string>)
    ensures Gathered(f, a + b) == Gathered(f, a) + Gathered(f, b)
    decreases |a|
  {
    if a == [] {
      assert a + b == b && [] + Gathered(f, b) == Gathered(f, b);
    } else {
      GatheredAppend(f, a[1..], b);
      assert (a + b)[0] == a[0] && (a + b)[1..] == a[1..] + b;
      ConcatAssoc(f(a[0]), Gathered(f, a[1..]), Gathered(f, b));
    }
  }

  lemma {:induction false} KeptIsGathered(pieces: seq<string>)
    ensures Kept(pieces) == Gathered(TokenOf, pieces)
  {
    if pieces == [] {
    } else {
      KeptIsGathered(pieces[1..]);
    }
  }

  lemma KeptAppend(a: seq<string>, b: seq<string>)
    ensures Kept(a + b) == Kept(a) + Kept(b)
  {
    KeptIsGathered(a);
    KeptIsGathered(b);
    KeptIsGathered(a + b);
    GatheredAppend(TokenOf, a, b);
  }

  lemma ConcatAssoc(a: seq<string>, b: seq<string>, c: seq<string>)
    ensures a + (b + c) == a + b + c
  {
  }

  lemma {:induction false} SplitAppend(value: string, piece: string)
    requires ',' !in piece
    ensures Split(value + "," + piece) == Split(value) + [piece]
    decreases |value|
  {
    var s := value + "," + piece;
    if value == "" {
      assert s[1..] == piece && s[0] == ',';
      SplitPiece(piece);
    } else {
      assert s[1..] == value[1..] + "," + piece && s[0] == value[0];
      SplitAppend(value[1..], piece);
    }
  }

  lemma {:induction false} SplitPiece(piece: string)
    requires ',' !in piece
    ensures Split(piece) == [piece]
  {
    if piece == "" {
    } else {
      assert piece[0] in piece && forall c :: c in piece[1..] ==> c in piece;
      SplitPiece(piece[1..]);
      assert [piece[0]] + piece[1..] == piece;
    }
  }

  lemma BlankHasNoToken(piece: string)
    requires AllBlank(piece)
    ensures Trimmed(piece).None?
  {
  }

  lemma TokenIs(left: string, token: string, right: string)
    requires AllBlank(left) && AllBlank(right)
    requires token != "" && !IsBlank(token[0]) && !IsBlank(token[|token| - 1])
    ensures Trimmed(left + token + right) == Some(token)
  {
    var s := left + token + right;
    assert s[|left|] == token[0] && s[|left| + |token| - 1] == token[|token| - 1];
    FirstBeforeLast(s);
    FirstIs(s, |left|);
    LastIs(s, |left| + |token| - 1);
    assert s[|left|..|left| + |token|] == token;
  }

  lemma FirstIs(s: string, i: nat)
    requires i < |s| && !IsBlank(s[i]) && forall k :: 0 <= k < i ==> IsBlank(s[k])
    ensures FirstNonBlank(s) == Some(i)
  {
    assert !AllBlank(s);
    var j := FirstNonBlank(s).value;
    assert forall k :: 0 <= k < j ==> s[..j][k] == s[k];
  }

  lemma LastIs(s: string, i: nat)
    requires i < |s| && !IsBlank(s[i]) && forall k :: i < k < |s| ==> IsBlank(s[k])
    ensures LastNonBlank(s) == Some(i)
  {
    assert !AllBlank(s);
    var j := LastNonBlank(s).value;
    assert forall k :: j < k < |s| ==> s[j + 1..][k - j - 1] == s[k];
  }

  /** A further entry of the list adds exactly its token at the end, whatever blanks surround it; an entry
      of blanks adds nothing. */
  lemma LastEntryAdds(value: string, left: string, token: string, right: string)
    requires AllBlank(left) && AllBlank(right) && ',' !in token
    requires token != "" ==> !IsBlank(token[0]) && !IsBlank(token[|token| - 1])
    ensures Kept(Split(value + "," + (left + token + right)))
         == Kept(Split(value)) + if token == "" then [] else [token]
  {
    var piece := left + token + right;
    EntryHasNoComma(left, token, right);
    SplitAppend(value, piece);
    KeptAppend(Split(value), [piece]);
    OnlyEntry(left, token, right);
    SplitPiece(piece);
  }

  lemma EntryHasNoComma(left: string, token: string, right: string)
    requires AllBlank(left) && AllBlank(right) && ',' !in token
    ensures ',' !in left + token + right
  {
  }

  /** A list of one entry holds exactly its token, if it has one. */
  lemma OnlyEntry(left: string, token: string, right: string)
    requires AllBlank(left) && AllBlank(right) && ',' !in token
    requires token != "" ==> !IsBlank(token[0]) && !IsBlank(token[|token| - 1])
    ensures Kept(Split(left + token + right)) == if token == "" then [] else [token]
  {
    var piece := left + token + right;
    EntryHasNoComma(left, token, right);
    SplitPiece(piece);
    KeptFirst(piece, []);
    assert [piece] + [] == [piece];
    if token == "" {
      BlankHasNoToken(piece);
    } else {
      TokenIs(left, token, right);
    }
  }
}
