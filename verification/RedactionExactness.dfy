// Exactly when redaction is complete and minimal.

module RedactionExactness {
  import opened LogLevels
  import opened Redaction
  import opened RedactionMinimality

  // ---------- Exactness for one pattern ----------

  ghost predicate Leaks(s: string, p: string)
    requires |p| > 0
  {
    Contains(Redacted(s, [p]), p)
  }

  /** For one pattern the promise holds on every message exactly when the pattern
      neither begins nor ends with '*'. */
  lemma OnePatternExact(p: string)
    requires |p| > 0
    ensures (forall s :: !Leaks(s, p)) <==> StarlessEnds(p)
  {
    if StarlessEnds(p) {
      forall s
        ensures !Leaks(s, p)
      {
        RedactionIsComplete(s, [p], 0);
      }
    } else {
      var s := SurvivingMessage(p);
      assert Leaks(s, p);
    }
  }

  function LeadingStars(p: string): (k: nat)
    ensures k <= |p| && p[..k] == Stars(k)
    ensures k < |p| ==> p[k] != '*'
  {
    if p == "" || p[0] != '*' then 0
    else
      var k := 1 + LeadingStars(p[1..]);
      assert p[..k] == [p[0]] + p[1..][..k - 1];
      k
  }

  function TrailingStars(p: string): (k: nat)
    ensures k <= |p| && p[|p| - k..] == Stars(k)
    ensures k < |p| ==> p[|p| - k - 1] != '*'
  {
    if p == "" || p[|p| - 1] != '*' then 0
    else
      var k := 1 + TrailingStars(p[..|p| - 1]);
      OneMoreStar(p, k - 1);
      k
  }

  lemma OneMoreStar(p: string, k: nat)
    requires k < |p| && p[|p| - 1] == '*'
    requires p[..|p| - 1][|p| - 1 - k..] == Stars(k)
    ensures p[|p| - k - 1..] == Stars(k + 1)
  {
    assert p[|p| - k - 1..] == p[..|p| - 1][|p| - 1 - k..] + [p[|p| - 1]];
  }

  /** A message in which a pattern with a star at one end survives its own redaction. */
  lemma SurvivingMessage(p: string) returns (s: string)
    requires |p| > 0 && !StarlessEnds(p)
    ensures Contains(Redacted(s, [p]), p)
  {
    if p[0] == '*' {
      s := StarFirstSurvives(p);
    } else {
      s := StarLastSurvives(p);
    }
  }

  lemma StarFirstSurvives(p: string) returns (s: string)
    requires |p| > 0 && p[0] == '*'
    ensures Contains(Redacted(s, [p]), p)
  {
    var k := LeadingStars(p);
    var r := p[k..];
    assert p == Stars(k) + r;
    s := p + r;
    assert s[0..0 + |p|] == p;
    OnlyTurn(s, p, 0);
    OnePattern(s, p);
    TailOfStars(r, k, |p|);
    assert StarOut(s, 0, |p|) == Stars(|p|) + r;
    assert OccursAt(Redacted(s, [p]), p, |p| - k);
  }

  /** A replacement after which no other one fits is the whole redaction. */
  lemma OnlyTurn(s: string, p: string, i: nat)
    requires |p| > 0 && OccursAt(s, p, i)
    requires forall j: nat :: j < i ==> !OccursAt(s, p, j)
    requires forall j: nat :: i + |p| <= j ==> !OccursAt(StarOut(s, i, |p|), p, j)
    ensures RedactFrom(s, p, 0) == StarOut(s, i, |p|)
  {
    FirstHit(s, p, i);
    RedactFromEnd(StarOut(s, i, |p|), p, i + |p|);
  }

  lemma FirstHit(s: string, p: string, i: nat)
    requires |p| > 0 && OccursAt(s, p, i)
    requires forall j: nat :: j < i ==> !OccursAt(s, p, j)
    ensures Find(s, p, 0) == Some(i)
  {
  }

  lemma RedactFromEnd(s: string, p: string, pos: nat)
    requires |p| > 0 && forall j: nat :: pos <= j ==> !OccursAt(s, p, j)
    ensures RedactFrom(s, p, pos) == s
  {
    assert Find(s, p, pos).None?;
  }

  lemma OnePattern(s: string, p: string)
    requires |p| > 0
    ensures Redacted(s, [p]) == RedactFrom(s, p, 0)
  {
    assert [p][1..] == [];
    assert Redacted(RedactFrom(s, p, 0), []) == RedactFrom(s, p, 0);
  }

  lemma TailOfStars(r: string, k: nat, n: nat)
    requires k <= n
    ensures (Stars(n) + r)[n - k..] == Stars(k) + r
  {
  }

  /** In `r + r + stars` the first occurrence of `r + stars` is the last possible one. */
  lemma OnlyLastOccurrence(r: string, k: nat, j: nat)
    requires r != "" && r[0] != '*' && k > 0 && j < |r|
    ensures !OccursAt(r + (r + Stars(k)), r + Stars(k), j)
  {
    var p := r + Stars(k);
    var s := r + p;
    assert p[|r|] == '*' && p[0] == r[0];
    assert s[j] == r[j];
    assert s[j + |r|] == p[j] == r[j];
    if OccursAt(s, p, j) {
      OccurrenceCharacter(s, p, j, 0);
      OccurrenceCharacter(s, p, j, |r|);
    }
  }

  /** The only replacement in `r + r + stars` covers the second half, and leaves the pattern. */
  lemma RepeatedSurvives(r: string, k: nat)
    requires r != "" && r[0] != '*' && k > 0
    ensures Contains(Redacted(r + (r + Stars(k)), [r + Stars(k)]), r + Stars(k))
  {
    var p := r + Stars(k);
    var s := r + p;
    forall j: nat | j < |r|
      ensures !OccursAt(s, p, j)
    {
      OnlyLastOccurrence(r, k, j);
    }
    assert OccursAt(s, p, |r|);
    OnlyTurn(s, p, |r|);
    OnePattern(s, p);
    StarsInstead(r, k, |p|);
    assert OccursAt(StarOut(s, |r|, |p|), p, 0);
  }

  lemma StarsInstead(r: string, k: nat, n: nat)
    requires n == |r| + k
    ensures StarOut(r + (r + Stars(k)), |r|, n)[0..n] == r + Stars(k)
  {
  }

  lemma StarLastSurvives(p: string) returns (s: string)
    requires |p| > 0 && p[0] != '*' && p[|p| - 1] == '*'
    ensures Contains(Redacted(s, [p]), p)
  {
    var k := TrailingStars(p);
    var r := p[..|p| - k];
    assert p == r + Stars(k);
    s := r + p;
    RepeatedSurvives(r, k);
  }

  /** Two patterns with starless ends can still leak: the second replacement builds the first. */
  lemma LaterReplacementCanRebuild()
    ensures StarlessEnds("a*b") && StarlessEnds("c")
    ensures Contains(Redacted("acb", ["a*b", "c"]), "a*b")
  {
    var s := "acb";
    assert s[0..3] == s;
    assert !OccursAt(s, "a*b", 0);
    assert RedactFrom(s, "a*b", 0) == s;
    assert s[0] == 'a' && s[1] == 'c';
    assert s[0..1] == "a" && s[1..2] == "c";
    assert Find(s, "c", 0) == Some(1);
    var t := StarOut(s, 1, 1);
    assert t == "a*b";
    assert t[2..3] == "b";
    assert !OccursAt(t, "c", 2);
    assert RedactFrom(s, "c", 0) == t;
    assert ["a*b", "c"][1..] == ["c"];
    assert ["c"][1..] == [];
    assert Redacted(s, ["a*b", "c"]) == t;
    assert OccursAt(t, "a*b", 0);
  }

  // ---------- Exactness for lists ----------

  ghost predicate HasLengths(patterns: seq<string>, lengths: seq<nat>) {
    |patterns| == |lengths| && forall i :: 0 <= i < |patterns| ==> |patterns[i]| == lengths[i]
  }

  predicate Positive(lengths: seq<nat>) {
    forall i :: 0 <= i < |lengths| ==> lengths[i] > 0
  }

  /** Patterns of the given lengths: `p` in place `i`, stars in the others. */
  function Filler(lengths: seq<nat>, i: int, p: string): seq<string> {
    if lengths == [] then []
    else [if i == 0 then p else Stars(lengths[0])] + Filler(lengths[1..], i - 1, p)
  }

  lemma {:induction false} FillerAt(lengths: seq<nat>, i: int, p: string)
    ensures |Filler(lengths, i, p)| == |lengths|
    ensures forall k :: 0 <= k < |lengths| ==> Filler(lengths, i, p)[k] == if k == i then p else Stars(lengths[k])
  {
    if lengths == [] {
    } else {
      FillerAt(lengths[1..], i - 1, p);
    }
  }

  lemma FillerPatterns(lengths: seq<nat>, i: int, p: string)
    requires Positive(lengths) && (0 <= i < |lengths| ==> |p| == lengths[i])
    ensures HasLengths(Filler(lengths, i, p), lengths) && AllNonEmpty(Filler(lengths, i, p))
    ensures forall q :: q in Filler(lengths, i, p) ==> q == p || AllStars(q)
  {
    FillerAt(lengths, i, p);
  }

  lemma {:induction false} FillerRedacts(s: string, lengths: seq<nat>, i: int, p: string)
    requires Positive(lengths) && |p| > 0 && AllNonEmpty(Filler(lengths, i, p))
    ensures Redacted(s, Filler(lengths, i, p)) == if 0 <= i < |lengths| then RedactFrom(s, p, 0) else s
    decreases |lengths|
  {
    if lengths == [] {
    } else {
      var filler, rest := Filler(lengths, i, p), Filler(lengths[1..], i - 1, p);
      assert filler[1..] == rest;
      assert AllNonEmpty(rest) by {
        assert forall k :: 0 <= k < |rest| ==> rest[k] == filler[k + 1];
      }
      StarsChangeNothing(s, Stars(lengths[0]));
      FillerRedacts(if i == 0 then RedactFrom(s, p, 0) else s, lengths[1..], i - 1, p);
    }
  }

  /** A block of one character, absent elsewhere, becomes a block of stars. */
  lemma BlockBecomesStars(left: string, right: string, c: char, n: nat)
    requires n > 0 && c != '*' && c !in left && c !in right
    ensures RedactFrom(left + Copies(c, n) + right, Copies(c, n), 0) == left + Stars(n) + right
  {
    var s, p, i := left + Copies(c, n) + right, Copies(c, n), |left|;
    assert s[i..i + n] == p;
    var t := StarOut(s, i, n);
    assert t == left + Stars(n) + right;
    forall j: nat | j < i
      ensures !OccursAt(s, p, j)
    {
      OccurrenceStart(s, p, j);
    }
    forall j: nat | i + n <= j
      ensures !OccursAt(t, p, j)
    {
      if j < |t| {
        assert t[j] == right[j - i - n];
      }
      OccurrenceStart(t, p, j);
    }
    OnlyTurn(s, p, i);
  }

  lemma OccurrenceStart(s: string, p: string, j: nat)
    requires |p| > 0
    ensures OccursAt(s, p, j) ==> j < |s| && s[j] == p[0]
  {
    if OccursAt(s, p, j) {
      OccurrenceCharacter(s, p, j, 0);
    }
  }

  /** Whatever the later patterns of these lengths, `q` does not survive. */
  ghost predicate NeverLeaks(q: string, lengths: seq<nat>) {
    forall later, s :: HasLengths(later, lengths) && AllNonEmpty([q] + later) ==> !Contains(Redacted(s, [q] + later), q)
  }

  lemma LaterPatternsOnly(s: string, q: string, later: seq<string>)
    requires |q| > 0 && AllNonEmpty(later)
    ensures AllNonEmpty([q] + later) && Redacted(s, [q] + later) == Redacted(RedactFrom(s, q, 0), later)
  {
    assert ([q] + later)[1..] == later;
  }

  lemma EndsLeak(q: string, lengths: seq<nat>)
    requires |q| > 0 && Positive(lengths) && !StarlessEnds(q)
    ensures !NeverLeaks(q, lengths)
  {
    var s := SurvivingMessage(q);
    OnePattern(s, q);
    FillerPatterns(lengths, -1, q);
    FillerRedacts(RedactFrom(s, q, 0), lengths, -1, q);
    LaterPatternsOnly(s, q, Filler(lengths, -1, q));
  }

  /** A later pattern of `n` equal characters rebuilds a pattern that holds `n` stars. */
  lemma MiddleLeaks(q: string, lengths: seq<nat>, i: nat, c: char)
    requires Positive(lengths) && i < |lengths| && StarlessEnds(q) && !Immune(q, lengths[i])
    requires c !in q && c != '*'
    ensures !NeverLeaks(q, lengths)
  {
    var n := lengths[i];
    var j: nat :| OccursAt(q, Stars(n), j);
    var left, right, p := q[..j], q[j + n..], Copies(c, n);
    var s := left + p + right;
    assert q == left + Stars(n) + right;
    forall x: nat
      ensures !OccursAt(s, q, x)
    {
      NotAroundBlock(left, right, c, n, q, x);
    }
    RedactFromEnd(s, q, 0);
    BlockBecomesStars(left, right, c, n);
    FillerPatterns(lengths, i, p);
    FillerRedacts(s, lengths, i, p);
    LaterPatternsOnly(s, q, Filler(lengths, i, p));
    assert q[0..|q|] == q && OccursAt(q, q, 0);
  }

  /** For given lengths of the later patterns, nothing leaks whatever they are if and only if the
      pattern has no star at its ends and no run of stars as long as one of them. */
  lemma CompleteIffGuarded(q: string, lengths: seq<nat>, c: char)
    requires |q| > 0 && Positive(lengths) && c !in q && c != '*'
    ensures NeverLeaks(q, lengths) <==> StarlessEnds(q) && forall i :: 0 <= i < |lengths| ==> Immune(q, lengths[i])
  {
    if !StarlessEnds(q) {
      EndsLeak(q, lengths);
    } else if i :| 0 <= i < |lengths| && !Immune(q, lengths[i]) {
      MiddleLeaks(q, lengths, i, c);
    } else {
      forall later, s | HasLengths(later, lengths) && AllNonEmpty([q] + later)
        ensures !Contains(Redacted(s, [q] + later), q)
      {
        RedactionIsComplete(s, [q] + later, 0);
      }
    }
  }

  lemma ProperCharacterGone(s: string, c: char, q: string)
    requires c != '*' && c in q
    ensures !Contains(RedactFrom(s, [c], 0), q)
  {
    OnePatternGone(s, [c], 0);
    var t := RedactFrom(s, [c], 0);
    var k :| 0 <= k < |q| && q[k] == c;
    forall i: nat
      ensures !OccursAt(t, q, i)
    {
      if OccursAt(t, q, i) {
        OccurrenceCharacter(t, q, i, k);
        OneCharacter(t, c, i + k);
      }
    }
  }

  lemma OneCharacter(t: string, c: char, k: nat)
    requires k < |t| && t[k] == c
    ensures Contains(t, [c])
  {
    assert t[k..k + 1] == [c];
    assert OccursAt(t, [c], k);
  }

  lemma EveryCharacterNeverLeaks(q: string)
    requires StarlessEnds(q) && forall c: char :: c in q
    ensures NeverLeaks(q, [1])
  {
    forall later, s | HasLengths(later, [1]) && AllNonEmpty([q] + later)
      ensures !Contains(Redacted(s, [q] + later), q)
    {
      var p := later[0];
      assert later == [p] && p == [p[0]];
      LaterPatternsOnly(s, q, later);
      OnePattern(RedactFrom(s, q, 0), p);
      OnePatternGone(s, q, 0);
      if p[0] == '*' {
        assert AllStars(p);
        StarsChangeNothing(RedactFrom(s, q, 0), p);
      } else {
        ProperCharacterGone(RedactFrom(s, q, 0), p[0], q);
      }
    }
  }

  /** Behind it a pattern of one character: nothing leaks if and only if the pattern has no star at its
      ends and either no star at all or every character, so that each such replacement destroys it.
      So the equivalence above does need a character that the pattern lacks. */
  lemma OneCharacterLaterIff(q: string)
    requires |q| > 0
    ensures NeverLeaks(q, [1]) <==> StarlessEnds(q) && (StarFree(q) || forall c: char :: c in q)
  {
    if !StarlessEnds(q) {
      EndsLeak(q, [1]);
    } else if StarFree(q) {
      StarFreeNeverLeaks(q, [1]);
    } else if c: char :| c !in q {
      var k :| 0 <= k < |q| && q[k] == '*';
      OneStar(q, k);
      MiddleLeaks(q, [1], 0, c);
    } else {
      EveryCharacterNeverLeaks(q);
    }
  }

  lemma StarFreeNeverLeaks(q: string, lengths: seq<nat>)
    requires |q| > 0 && StarFree(q)
    ensures NeverLeaks(q, lengths)
  {
    forall later, s | HasLengths(later, lengths) && AllNonEmpty([q] + later)
      ensures !Contains(Redacted(s, [q] + later), q)
    {
      StarFreeIsGuarded([q] + later, 0);
      RedactionIsComplete(s, [q] + later, 0);
    }
  }

  // ---------- Exactness of minimality ----------

  /** The pass for the last pattern changes position `k` outside every original occurrence. */
  ghost predicate Overreaches(s: string, earlier: seq<string>, q: string, k: nat)
    requires AllNonEmpty(earlier) && |q| > 0 && k < |s|
  {
    var t := Redacted(s, earlier);
    RedactFrom(t, q, 0)[k] != t[k] && !Covered(s, earlier + [q], k)
  }

  /** Whatever the earlier patterns of these lengths, the pass for `q` stays within original occurrences. */
  ghost predicate NeverOverreaches(q: string, lengths: seq<nat>)
    requires |q| > 0
  {
    forall earlier, s, k: nat :: HasLengths(earlier, lengths) && AllNonEmpty(earlier) && k < |s| ==>
      !Overreaches(s, earlier, q, k)
  }

  /** A pattern that is not immune is shorter text put around a block of stars. */
  lemma BlockMakesPattern(q: string, n: nat) returns (left: string, right: string, at: nat)
    requires |q| > 0 && n > 0 && !Immune(q, n)
    ensures |left| + |right| < |q| && OccursAt(left + Stars(n) + right, q, at)
    ensures forall c :: c in left || c in right ==> c in q
  {
    if q[0] == '*' {
      left, right, at := "", q[1..], n - 1;
      assert (left + Stars(n) + right)[n - 1..n - 1 + |q|] == q;
    } else if q[|q| - 1] == '*' {
      left, right, at := q[..|q| - 1], "", 0;
      assert (left + Stars(n) + right)[0..|q|] == q;
    } else {
      var i: nat :| OccursAt(q, Stars(n), i);
      left, right, at := q[..i], q[i + n..], 0;
      assert left + Stars(n) + right == q && q[0..|q|] == q;
    }
  }

  lemma {:induction false} StarsStay(s: string, p: string, pos: nat, k: nat)
    requires |p| > 0 && k < |s| && s[k] == '*'
    ensures RedactFrom(s, p, pos)[k] == '*'
    decreases |s| - pos
  {
    match Find(s, p, pos)
    case None =>
    case Some(i) => StarsStay(StarOut(s, i, |p|), p, i + |p|, k);
  }

  /** If `q` occurs, its pass stars out a character that was none. */
  lemma PassChanges(t: string, q: string, at: nat) returns (k: nat)
    requires OccursAt(t, q, at) && |q| > 0 && !AllStars(q)
    ensures k < |t| && t[k] != '*' && t[k] in q && RedactFrom(t, q, 0)[k] == '*'
  {
    var f := Find(t, q, 0).value;
    var m :| 0 <= m < |q| && q[m] != '*';
    k := f + m;
    OccurrenceCharacter(t, q, f, m);
    StarsLand(t, q, f, k);
  }

  lemma StarsLand(s: string, p: string, i: nat, k: nat)
    requires |p| > 0 && Find(s, p, 0) == Some(i) && i <= k < i + |p|
    ensures RedactFrom(s, p, 0)[k] == '*'
  {
    StarsStay(StarOut(s, i, |p|), p, i + |p|, k);
  }

  /** Text around a block of another character holds no occurrence longer than either side. */
  lemma NotAroundBlock(left: string, right: string, c: char, n: nat, q: string, i: nat)
    requires n > 0 && c !in q && |left| < |q| && |right| < |q|
    ensures !OccursAt(left + Copies(c, n) + right, q, i)
  {
    var s := left + Copies(c, n) + right;
    if OccursAt(s, q, i) {
      var x := if i <= |left| then |left| else i;
      assert s[x] == c;
      OccurrenceCharacter(s, q, i, x - i);
    }
  }

  /** A block that becomes stars and so completes `q` lets the pass for `q` overreach. */
  lemma BlockOverreaches(left: string, right: string, c: char, n: nat, q: string, at: nat, earlier: seq<string>)
    returns (k: nat)
    requires n > 0 && c !in q && |q| > 0 && |left| + |right| < |q| && !AllStars(q)
    requires OccursAt(left + Stars(n) + right, q, at)
    requires AllNonEmpty(earlier) && forall r :: r in earlier ==> r == Copies(c, n) || AllStars(r)
    requires Redacted(left + Copies(c, n) + right, earlier) == left + Stars(n) + right
    ensures k < |left + Copies(c, n) + right| && Overreaches(left + Copies(c, n) + right, earlier, q, k)
  {
    var s := left + Copies(c, n) + right;
    k := PassChanges(left + Stars(n) + right, q, at);
    SameOutsideBlock(left, right, c, n, k);
    forall x: nat
      ensures !OccursAt(s, q, x)
    {
      NotAroundBlock(left, right, c, n, q, x);
    }
    NotCovered(s, earlier, Copies(c, n), q, k);
  }

  /** An earlier pattern of `n` equal characters lets the pass for `q` overreach. */
  lemma NotSteadyOverreaches(q: string, lengths: seq<nat>, i: nat, c: char)
    requires |q| > 0 && Positive(lengths) && i < |lengths| && !Steady(q, lengths[i])
    requires c !in q && c != '*'
    ensures !NeverOverreaches(q, lengths)
  {
    var n := lengths[i];
    var left, right, at := BlockMakesPattern(q, n);
    var p := Copies(c, n);
    FillerPatterns(lengths, i, p);
    FillerRedacts(left + p + right, lengths, i, p);
    BlockBecomesStars(left, right, c, n);
    var k := BlockOverreaches(left, right, c, n, q, at, Filler(lengths, i, p));
  }

  lemma SameOutsideBlock(left: string, right: string, c: char, n: nat, k: nat)
    requires k < |left + Stars(n) + right| && (left + Stars(n) + right)[k] != '*'
    ensures (left + Copies(c, n) + right)[k] == (left + Stars(n) + right)[k]
  {
  }

  lemma NotCovered(s: string, earlier: seq<string>, p: string, q: string, k: nat)
    requires k < |s| && s[k] != '*' && s[k] !in p && !Contains(s, q)
    requires forall r :: r in earlier ==> r == p || AllStars(r)
    ensures !Covered(s, earlier + [q], k)
  {
    forall r, i: nat | r in earlier + [q] && OccursAt(s, r, i)
      ensures !(i <= k < i + |r|)
    {
      if i <= k < i + |r| {
        OccurrenceCharacter(s, r, i, k - i);
      }
    }
  }

  lemma SteadyStays(s: string, earlier: seq<string>, q: string, k: nat)
    requires AllNonEmpty(earlier) && |q| > 0 && k < |s|
    requires forall i :: 0 <= i < |earlier| ==> Steady(q, |earlier[i]|)
    ensures !Overreaches(s, earlier, q, k)
  {
    AllPassesKeepOld(s, s, earlier, q);
    PassMinimal(s, Redacted(s, earlier), q, k);
    if Covered(s, [q], k) {
      CoveredByMore(s, [q], earlier + [q], k);
    }
  }

  lemma {:induction false} AllPassesKeepOld(s: string, t: string, patterns: seq<string>, q: string)
    requires AllNonEmpty(patterns) && (AllStars(q) || OnlyOld(s, t, q))
    requires forall i :: 0 <= i < |patterns| ==> Steady(q, |patterns[i]|)
    ensures AllStars(q) || OnlyOld(s, Redacted(t, patterns), q)
    decreases |patterns|
  {
    if patterns == [] {
    } else {
      StillOld(s, t, patterns[0], q);
      AllPassesKeepOld(s, RedactFrom(t, patterns[0], 0), patterns[1..], q);
    }
  }

  /** For given lengths of the earlier patterns, the pass for `q` never leaves the original
      occurrences, whatever they are, if and only if `q` is steady under each of them. */
  lemma MinimalIffSteady(q: string, lengths: seq<nat>, c: char)
    requires |q| > 0 && Positive(lengths) && c !in q && c != '*'
    ensures NeverOverreaches(q, lengths) <==> forall i :: 0 <= i < |lengths| ==> Steady(q, lengths[i])
  {
    if i :| 0 <= i < |lengths| && !Steady(q, lengths[i]) {
      NotSteadyOverreaches(q, lengths, i, c);
    } else {
      forall earlier, s, k: nat | HasLengths(earlier, lengths) && AllNonEmpty(earlier) && k < |s|
        ensures !Overreaches(s, earlier, q, k)
      {
        SteadyStays(s, earlier, q, k);
      }
    }
  }

  /** Redacting with `p`, then `q`, changes only characters inside original occurrences. */
  ghost predicate PairMinimal(p: string, q: string)
    requires |p| > 0 && |q| > 0
  {
    forall s, k: nat :: k < |s| && Redacted(s, [p, q])[k] != s[k] ==> Covered(s, [p, q], k)
  }

  lemma PairPasses(s: string, p: string, q: string)
    requires |p| > 0 && |q| > 0
    ensures Redacted(s, [p, q]) == RedactFrom(Redacted(s, [p]), q, 0)
  {
    assert [p, q][1..] == [q];
    OnePattern(s, p);
    OnePattern(RedactFrom(s, p, 0), q);
  }

  lemma PairStaysWithin(p: string, q: string, s: string, k: nat)
    requires |p| > 0 && |q| > 0 && k < |s| && PairMinimal(p, q)
    ensures !Overreaches(s, [p], q, k)
  {
    var t := Redacted(s, [p]);
    PairPasses(s, p, q);
    OnePattern(s, p);
    assert [p] + [q] == [p, q];
    OneLoopMinimal(s, s, p, 0, k);
    OneLoopMinimal(t, t, q, 0, k);
  }

  /** Behind any first pattern `q` changes only characters inside original occurrences, if and only
      if it is free of '*' or consists of nothing else. */
  lemma PairMinimalIff(q: string, c: char)
    requires |q| > 0 && c !in q && c != '*'
    ensures (forall p :: |p| > 0 ==> PairMinimal(p, q)) <==> StarFree(q) || AllStars(q)
  {
    if StarFree(q) || AllStars(q) {
      forall p | |p| > 0
        ensures PairMinimal(p, q)
      {
        SteadyPair(p, q);
      }
    }
    if forall p :: |p| > 0 ==> PairMinimal(p, q) {
      AllPairsStayWithin(q);
      MinimalIffSteady(q, [1], c);
      assert Steady(q, [1][0]);
      SteadyUnderOne(q);
    }
  }

  lemma SteadyUnderOne(q: string)
    requires Steady(q, 1)
    ensures StarFree(q) || AllStars(q)
  {
    if k :| 0 <= k < |q| && q[k] == '*' {
      OneStar(q, k);
    }
  }

  lemma OneStar(q: string, k: nat)
    requires k < |q| && q[k] == '*'
    ensures Contains(q, Stars(1))
  {
    assert q[k..k + 1] == Stars(1);
    assert OccursAt(q, Stars(1), k);
  }

  lemma AllPairsStayWithin(q: string)
    requires |q| > 0 && forall p :: |p| > 0 ==> PairMinimal(p, q)
    ensures NeverOverreaches(q, [1])
  {
    forall earlier, s, k: nat | HasLengths(earlier, [1]) && AllNonEmpty(earlier) && k < |s|
      ensures !Overreaches(s, earlier, q, k)
    {
      assert earlier == [earlier[0]];
      PairStaysWithin(earlier[0], q, s, k);
    }
  }

  lemma SteadyPair(p: string, q: string)
    requires |p| > 0 && |q| > 0 && (StarFree(q) || AllStars(q))
    ensures PairMinimal(p, q)
  {
    if StarFree(q) {
      StarFreeIsImmune(q, |p|);
    }
    assert AllSteady([p, q]);
    forall s, k: nat | k < |s| && Redacted(s, [p, q])[k] != s[k]
      ensures Covered(s, [p, q], k)
    {
      RedactionIsMinimal(s, [p, q], k);
    }
  }
}
