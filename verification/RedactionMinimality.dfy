// Redaction changes no more than it must.

module RedactionMinimality {
  import opened LogLevels
  import opened Redaction

  // ---------- Covered positions ----------

  /** Position `k` of `s` lies inside an occurrence of one of the patterns. */
  ghost predicate Covered(s: string, patterns: seq<string>, k: nat) {
    exists p, i: nat :: p in patterns && OccursAt(s, p, i) && i <= k < i + |p|
  }

  lemma OccurrenceInTail(s: string, t: string, p: string, pos: nat, j: nat)
    requires |s| == |t| && pos <= j && OccursAt(t, p, j) && t[pos..] == s[pos..]
    ensures OccursAt(s, p, j)
    ensures StarOut(t, j, |p|)[j + |p|..] == s[j + |p|..]
  {
    assert t[j..j + |p|] == t[pos..][j - pos..j - pos + |p|] == s[j..j + |p|];
    assert StarOut(t, j, |p|)[j + |p|..] == t[pos..][j - pos + |p|..];
  }

  lemma {:induction false} OneLoopMinimal(s: string, t: string, p: string, pos: nat, k: nat)
    requires |p| > 0 && |t| == |s| && k < |s|
    requires pos <= |s| && t[pos..] == s[pos..]
    ensures RedactFrom(t, p, pos)[k] != t[k] ==> RedactFrom(t, p, pos)[k] == '*' && Covered(s, [p], k)
    decreases |t| - pos
  {
    var found := Find(t, p, pos);
    if found.Some? {
      var j := found.value;
      OccurrenceInTail(s, t, p, pos, j);
      OneLoopMinimal(s, StarOut(t, j, |p|), p, j + |p|, k);
      assert p in [p];
    }
  }

  predicate AllStars(q: string) {
    q == Stars(|q|)
  }

  lemma StarsChangeNothing(s: string, p: string)
    requires |p| > 0 && AllStars(p)
    ensures RedactFrom(s, p, 0) == s
  {
    forall k | 0 <= k < |s|
      ensures RedactFrom(s, p, 0)[k] == s[k]
    {
      OneLoopMinimal(s, s, p, 0, k);
      if Covered(s, [p], k) {
        var q, i: nat :| q in [p] && OccursAt(s, q, i) && i <= k < i + |q|;
        OccurrenceCharacter(s, p, i, k - i);
      }
    }
  }

  /** Each occurrence of `q` in `t` is one in `s`. */
  ghost predicate OnlyOld(s: string, t: string, q: string) {
    forall i: nat :: OccursAt(t, q, i) ==> OccursAt(s, q, i)
  }

  lemma {:induction false} OccurrenceWasThere(s: string, p: string, pos: nat, q: string, i: nat)
    requires |p| > 0 && Immune(q, |p|) && OccursAt(RedactFrom(s, p, pos), q, i)
    ensures OccursAt(s, q, i)
    decreases |s| - pos
  {
    match Find(s, p, pos)
    case None =>
    case Some(j) =>
      OccurrenceWasThere(StarOut(s, j, |p|), p, j + |p|, q, i);
      StarringCreatesNothing(s, q, j, |p|, i);
  }

  lemma PassMakesNoneNew(s: string, p: string, q: string)
    requires |p| > 0 && Immune(q, |p|)
    ensures OnlyOld(s, RedactFrom(s, p, 0), q)
  {
    forall i: nat | OccursAt(RedactFrom(s, p, 0), q, i)
      ensures OccursAt(s, q, i)
    {
      OccurrenceWasThere(s, p, 0, q, i);
    }
  }

  /** Replacing `n` characters supplies no part of an occurrence of `q` that would change anything. */
  ghost predicate Steady(q: string, n: nat) {
    AllStars(q) || Immune(q, n)
  }

  /** Every pattern is steady under the replacements made for the ones before it. */
  ghost predicate AllSteady(patterns: seq<string>) {
    forall i, j :: 0 <= i < j < |patterns| ==> Steady(patterns[j], |patterns[i]|)
  }

  lemma PassMinimal(s: string, t: string, p: string, k: nat)
    requires |p| > 0 && |t| == |s| && k < |s| && (AllStars(p) || OnlyOld(s, t, p))
    ensures RedactFrom(t, p, 0)[k] != t[k] ==> RedactFrom(t, p, 0)[k] == '*' && Covered(s, [p], k)
  {
    if AllStars(p) {
      StarsChangeNothing(t, p);
    } else {
      OneLoopMinimal(t, t, p, 0, k);
      if RedactFrom(t, p, 0)[k] != t[k] {
        var q, i: nat :| q in [p] && OccursAt(t, q, i) && i <= k < i + |q|;
        assert OccursAt(s, q, i);
      }
    }
  }

  lemma CoveredByMore(s: string, few: seq<string>, many: seq<string>, k: nat)
    requires Covered(s, few, k) && forall p :: p in few ==> p in many
    ensures Covered(s, many, k)
  {
    var p, i: nat :| p in few && OccursAt(s, p, i) && i <= k < i + |p|;
    assert p in many;
  }

  lemma StillOld(s: string, t: string, p: string, q: string)
    requires |p| > 0 && Steady(q, |p|) && (AllStars(q) || OnlyOld(s, t, q))
    ensures AllStars(q) || OnlyOld(s, RedactFrom(t, p, 0), q)
  {
    if !AllStars(q) {
      PassMakesNoneNew(t, p, q);
    }
  }

  lemma {:induction false} RestMinimal(s: string, t: string, patterns: seq<string>, k: nat)
    requires AllNonEmpty(patterns) && AllSteady(patterns) && |t| == |s| && k < |s|
    requires forall j :: 0 <= j < |patterns| ==> AllStars(patterns[j]) || OnlyOld(s, t, patterns[j])
    ensures Redacted(t, patterns)[k] != t[k] ==> Redacted(t, patterns)[k] == '*' && Covered(s, patterns, k)
    decreases |patterns|
  {
    if patterns == [] {
    } else {
      var p, rest := patterns[0], patterns[1..];
      var u := RedactFrom(t, p, 0);
      PassMinimal(s, t, p, k);
      forall j | 0 <= j < |rest|
        ensures AllStars(rest[j]) || OnlyOld(s, u, rest[j])
      {
        assert Steady(patterns[j + 1], |patterns[0]|);
        StillOld(s, t, p, patterns[j + 1]);
      }
      assert AllSteady(rest) by {
        assert forall j :: 0 <= j < |rest| ==> rest[j] == patterns[j + 1];
      }
      RestMinimal(s, u, rest, k);
      if u[k] != t[k] {
        CoveredByMore(s, [p], patterns, k);
      } else if Redacted(u, rest)[k] != u[k] {
        CoveredByMore(s, rest, patterns, k);
      }
    }
  }

  /** A character changes only into '*', and only inside an occurrence in the original message,
      whenever no replacement can supply stars to a later pattern. */
  lemma RedactionIsMinimal(s: string, patterns: seq<string>, k: nat)
    requires AllNonEmpty(patterns) && AllSteady(patterns) && k < |s|
    ensures Redacted(s, patterns)[k] != s[k] ==> Redacted(s, patterns)[k] == '*' && Covered(s, patterns, k)
  {
    RestMinimal(s, s, patterns, k);
  }

  /** Patterns without '*' after the first are always steady. */
  lemma StarFreeIsSteady(patterns: seq<string>)
    requires AllNonEmpty(patterns) && forall j :: 0 < j < |patterns| ==> StarFree(patterns[j])
    ensures AllSteady(patterns)
  {
    forall i, j | 0 <= i < j < |patterns|
      ensures Steady(patterns[j], |patterns[i]|)
    {
      StarFreeIsImmune(patterns[j], |patterns[i]|);
    }
  }
}
