// Substring redaction: an in-place search-and-replace loop per pattern.

module Redaction {
  import opened LogLevels

  // ---------- Occurrences ----------

  predicate OccursAt(s: string, p: string, i: nat) {
    i + |p| <= |s| && s[i..i + |p|] == p
  }

  ghost predicate Contains(s: string, p: string) {
    exists i: nat :: OccursAt(s, p, i)
  }

  predicate StarFree(p: string) {
    '*' !in p
  }

  predicate AllNonEmpty(patterns: seq<string>) {
    forall i :: 0 <= i < |patterns| ==> |patterns[i]| > 0
  }

  lemma OccurrenceCharacter(s: string, p: string, i: nat, k: nat)
    requires OccursAt(s, p, i) && k < |p|
    ensures s[i + k] == p[k]
  {
    assert s[i..i + |p|][k] == p[k];
  }

  // ---------- The loop, as functions ----------

  /** The lowest occurrence at or after `pos`. */
  function Find(s: string, p: string, pos: nat): (r: Option<nat>)
    ensures r.Some? ==> pos <= r.value && OccursAt(s, p, r.value)
    ensures r.Some? ==> forall i: nat :: pos <= i < r.value ==> !OccursAt(s, p, i)
    ensures r.None? ==> forall i: nat :: pos <= i ==> !OccursAt(s, p, i)
    decreases |s| - pos
  {
    if pos + |p| > |s| then None
    else if OccursAt(s, p, pos) then Some(pos)
    else Find(s, p, pos + 1)
  }

  function Copies(c: char, n: nat): (t: string)
    ensures |t| == n && forall k :: 0 <= k < n ==> t[k] == c
  {
    if n == 0 then "" else Copies(c, n - 1) + [c]
  }

  function Stars(n: nat): (t: string)
    ensures |t| == n && forall k :: 0 <= k < n ==> t[k] == '*'
  {
    Copies('*', n)
  }

  function StarOut(s: string, i: nat, n: nat): (t: string)
    requires i + n <= |s|
    ensures |t| == |s|
    ensures forall k {:trigger t[k]} :: 0 <= k < |s| ==> t[k] == if i <= k < i + n then '*' else s[k]
  {
    s[..i] + Stars(n) + s[i + n..]
  }

  /** The rest of the inner loop, entered with `redacted == s` and the given `pos`. */
  function RedactFrom(s: string, p: string, pos: nat): (t: string)
    requires |p| > 0
    ensures |t| == |s|
    decreases |s| - pos
  {
    match Find(s, p, pos)
    case None => s
    case Some(i) => RedactFrom(StarOut(s, i, |p|), p, i + |p|)
  }

  function Redacted(s: string, patterns: seq<string>): (t: string)
    requires AllNonEmpty(patterns)
    ensures |t| == |s|
    decreases |patterns|
  {
    if patterns == [] then s
    else Redacted(RedactFrom(s, patterns[0], 0), patterns[1..])
  }

  method Redact(message: string, patterns: seq<string>) returns (redacted: string)
    requires AllNonEmpty(patterns)
    ensures redacted == Redacted(message, patterns)
  {
    redacted := message;
    assert patterns[0..] == patterns;
    for i := 0 to |patterns|
      invariant Redacted(redacted, patterns[i..]) == Redacted(message, patterns)
    {
      assert patterns[i..][0] == patterns[i] && patterns[i..][1..] == patterns[i + 1..];
      redacted := ReplaceAll(redacted, patterns[i]);
    }
  }

  /** The inner loop, for one pattern. */
  method ReplaceAll(message: string, pat: string) returns (redacted: string)
    requires |pat| > 0
    ensures redacted == RedactFrom(message, pat, 0)
  {
    redacted := message;
    var pos: nat := 0;
    var found := true;
    while found
      invariant found ==> RedactFrom(redacted, pat, pos) == RedactFrom(message, pat, 0)
      invariant !found ==> redacted == RedactFrom(message, pat, 0)
      decreases found, |redacted| - pos
    {
      found, redacted, pos := ReplaceNext(redacted, pat, pos);
    }
  }

  /** One turn of the inner loop: find, replace, move on. */
  method ReplaceNext(text: string, pat: string, pos: nat) returns (found: bool, t: string, next: nat)
    ensures |t| == |text| && (found ==> pos + |pat| <= next <= |t|)
    ensures |pat| > 0 && found ==> RedactFrom(t, pat, next) == RedactFrom(text, pat, pos)
    ensures |pat| > 0 && !found ==> t == text == RedactFrom(text, pat, pos)
    ensures pat == "" ==> found == (pos <= |text|) && t == text && next == pos
  {
    EmptyIsHere(text, pos);
    var hit := Find(text, pat, pos);
    if hit.None? {
      return false, text, pos;
    }
    return true, StarOut(text, hit.value, |pat|), hit.value + |pat|;
  }

  /** An empty pattern is found where the search begins, and replaced by nothing. */
  lemma EmptyIsHere(s: string, pos: nat)
    ensures Find(s, "", pos) == if pos <= |s| then Some(pos) else None
    ensures pos <= |s| ==> StarOut(s, pos, 0) == s
  {
    if pos <= |s| {
      assert OccursAt(s, "", pos);
    }
  }

  // ---------- Termination ----------

  /** The text the inner loop leaves if it exits within `n` turns. */
  function ExitWithin(s: string, p: string, pos: nat, n: nat): Option<string>
    decreases n
  {
    match Find(s, p, pos)
    case None => Some(s)
    case Some(i) => if n == 0 then None else ExitWithin(StarOut(s, i, |p|), p, i + |p|, n - 1)
  }

  lemma {:induction false} NonEmptyExits(s: string, p: string, pos: nat)
    requires |p| > 0
    ensures exists n: nat :: ExitWithin(s, p, pos, n) == Some(RedactFrom(s, p, pos))
    decreases |s| - pos
  {
    match Find(s, p, pos)
    case None =>
      assert ExitWithin(s, p, pos, 0) == Some(s);
    case Some(i) =>
      NonEmptyExits(StarOut(s, i, |p|), p, i + |p|);
      var n: nat :| ExitWithin(StarOut(s, i, |p|), p, i + |p|, n) == Some(RedactFrom(s, p, pos));
      assert ExitWithin(s, p, pos, n + 1) == Some(RedactFrom(s, p, pos));
  }

  lemma {:induction false} EmptyNeverExits(s: string, pos: nat, n: nat)
    requires pos <= |s|
    ensures ExitWithin(s, "", pos, n) == None
  {
    EmptyIsHere(s, pos);
    if n > 0 {
      EmptyNeverExits(s, pos, n - 1);
    }
  }

  /** The inner loop ends exactly for non-empty patterns, whatever the message. */
  lemma TerminatesIffNonEmpty(s: string, p: string)
    ensures (exists n: nat :: ExitWithin(s, p, 0, n).Some?) <==> |p| > 0
  {
    if |p| > 0 {
      NonEmptyExits(s, p, 0);
    } else {
      assert p == "";
      forall n: nat
        ensures ExitWithin(s, p, 0, n).None?
      {
        EmptyNeverExits(s, 0, n);
      }
    }
  }

  // ---------- Completeness ----------

  /** A pattern no replacement can touch with its ends. */
  predicate StarlessEnds(p: string) {
    |p| > 0 && p[0] != '*' && p[|p| - 1] != '*'
  }

  /** Inserting or writing a block of `n` stars cannot complete an occurrence of `p`. */
  ghost predicate Immune(p: string, n: nat) {
    StarlessEnds(p) && !Contains(p, Stars(n))
  }

  /** The `i`-th pattern is immune to the replacements made for the later ones. */
  ghost predicate Guarded(patterns: seq<string>, i: nat)
    requires i < |patterns|
  {
    && StarlessEnds(patterns[i])
    && forall j :: i < j < |patterns| ==> Immune(patterns[i], |patterns[j]|)
  }

  lemma StarFreeIsImmune(p: string, n: nat)
    requires |p| > 0 && n > 0 && StarFree(p)
    ensures Immune(p, n)
  {
    forall k: nat
      ensures !OccursAt(p, Stars(n), k)
    {
      if OccursAt(p, Stars(n), k) {
        OccurrenceCharacter(p, Stars(n), k, 0);
      }
    }
  }

  lemma StarFreeIsGuarded(patterns: seq<string>, i: nat)
    requires AllNonEmpty(patterns) && i < |patterns| && StarFree(patterns[i])
    ensures Guarded(patterns, i)
  {
    forall j | i < j < |patterns|
      ensures Immune(patterns[i], |patterns[j]|)
    {
      StarFreeIsImmune(patterns[i], |patterns[j]|);
    }
  }

  lemma RoomForStars(t: string, q: string, i: nat, j: nat, n: nat)
    requires OccursAt(t, q, i) && j + n <= |t| && t[j..j + n] == Stars(n)
    ensures i <= j && j + n <= i + |q| ==> OccursAt(q, Stars(n), j - i)
  {
    if i <= j && j + n <= i + |q| {
      var run := q[j - i..j - i + n];
      forall x | 0 <= x < n
        ensures run[x] == Stars(n)[x]
      {
        OccurrenceCharacter(t, q, i, j - i + x);
        assert t[j..j + n][x] == t[j + x];
      }
      assert run == Stars(n);
    }
  }

  /** Starring out `n` characters creates no occurrence of a pattern with starless ends
      that has no room for `n` stars. */
  lemma StarringCreatesNothing(s: string, q: string, j: nat, n: nat, i: nat)
    requires j + n <= |s| && n > 0
    requires StarlessEnds(q) && OccursAt(StarOut(s, j, n), q, i)
    requires |q| <= n || Immune(q, n)
    ensures i + |q| <= j || j + n <= i
    ensures OccursAt(s, q, i)
  {
    var t := StarOut(s, j, n);
    OccurrenceCharacter(t, q, i, 0);
    OccurrenceCharacter(t, q, i, |q| - 1);
    assert t[j..j + n] == Stars(n);
    RoomForStars(t, q, i, j, n);
    assert t[i..i + |q|] == s[i..i + |q|];
  }

  lemma NoNewBefore(s: string, p: string, j: nat)
    requires StarlessEnds(p) && j + |p| <= |s|
    requires forall i: nat :: i < j ==> !OccursAt(s, p, i)
    ensures forall i: nat :: i < j + |p| ==> !OccursAt(StarOut(s, j, |p|), p, i)
  {
    var t := StarOut(s, j, |p|);
    forall i: nat | i < j + |p|
      ensures !OccursAt(t, p, i)
    {
      if OccursAt(t, p, i) {
        StarringCreatesNothing(s, p, j, |p|, i);
      }
    }
  }

  lemma {:induction false} OnePatternGone(s: string, p: string, pos: nat)
    requires StarlessEnds(p)
    requires forall i: nat :: i < pos ==> !OccursAt(s, p, i)
    ensures !Contains(RedactFrom(s, p, pos), p)
    decreases |s| - pos
  {
    var found := Find(s, p, pos);
    if found.Some? {
      NoNewBefore(s, p, found.value);
      OnePatternGone(StarOut(s, found.value, |p|), p, found.value + |p|);
    }
  }

  lemma NoNewOther(s: string, q: string, j: nat, n: nat)
    requires j + n <= |s| && n > 0 && Immune(q, n) && !Contains(s, q)
    ensures !Contains(StarOut(s, j, n), q)
  {
    var t := StarOut(s, j, n);
    forall i: nat
      ensures !OccursAt(t, q, i)
    {
      if OccursAt(t, q, i) {
        StarringCreatesNothing(s, q, j, n, i);
      }
    }
  }

  lemma {:induction false} OthersStayGone(s: string, p: string, pos: nat, q: string)
    requires |p| > 0 && Immune(q, |p|) && !Contains(s, q)
    ensures !Contains(RedactFrom(s, p, pos), q)
    decreases |s| - pos
  {
    var found := Find(s, p, pos);
    if found.Some? {
      NoNewOther(s, q, found.value, |p|);
      OthersStayGone(StarOut(s, found.value, |p|), p, found.value + |p|, q);
    }
  }

  lemma {:induction false} GoneThroughTheRest(s: string, patterns: seq<string>, q: string)
    requires AllNonEmpty(patterns) && !Contains(s, q)
    requires forall j :: 0 <= j < |patterns| ==> Immune(q, |patterns[j]|)
    ensures !Contains(Redacted(s, patterns), q)
    decreases |patterns|
  {
    if patterns == [] {
    } else {
      OthersStayGone(s, patterns[0], 0, q);
      GoneThroughTheRest(RedactFrom(s, patterns[0], 0), patterns[1..], q);
    }
  }

  /** After redaction a guarded pattern does not occur any more: not in text handled early,
      not overlapping a replaced match, whatever the other patterns are. */
  lemma {:induction false} RedactionIsComplete(s: string, patterns: seq<string>, i: nat)
    requires AllNonEmpty(patterns) && i < |patterns| && Guarded(patterns, i)
    ensures !Contains(Redacted(s, patterns), patterns[i])
    decreases |patterns|
  {
    var p, rest := patterns[0], patterns[1..];
    var t := RedactFrom(s, p, 0);
    assert forall j :: 0 <= j < |rest| ==> rest[j] == patterns[j + 1];
    if i == 0 {
      OnePatternGone(s, p, 0);
      GoneThroughTheRest(t, rest, p);
    } else {
      RedactionIsComplete(t, rest, i - 1);
    }
  }

  /** Text without any of the patterns passes through unchanged. */
  lemma {:induction false} CleanTextUnchanged(s: string, patterns: seq<string>)
    requires AllNonEmpty(patterns)
    requires forall p :: p in patterns ==> !Contains(s, p)
    ensures Redacted(s, patterns) == s
  {
    if patterns == [] {
    } else {
      assert patterns[0] in patterns;
      assert Find(s, patterns[0], 0).None?;
      CleanTextUnchanged(s, patterns[1..]);
    }
  }

  lemma RedactionIsIdempotent(s: string, patterns: seq<string>)
    requires AllNonEmpty(patterns)
    requires forall i :: 0 <= i < |patterns| ==> Guarded(patterns, i)
    ensures Redacted(Redacted(s, patterns), patterns) == Redacted(s, patterns)
  {
    forall i | 0 <= i < |patterns|
      ensures !Contains(Redacted(s, patterns), patterns[i])
    {
      RedactionIsComplete(s, patterns, i);
    }
    CleanTextUnchanged(Redacted(s, patterns), patterns);
  }
}
