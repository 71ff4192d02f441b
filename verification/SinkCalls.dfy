// What one undisturbed call on a logger achieves: removals, clears and log calls as whole runs of
// one thread, from any state the interleavings can reach.

module SinkCalls {
  import opened LogLevels
  import opened SinkRemoval

  lemma Then(s: State, front: seq<Action>, a: Action, mid: State, next: State)
    requires Run(s, front) == mid && Step(mid, a) == next
    ensures Run(s, front + [a]) == next
  {
    RunLast(s, front, a);
  }

  // ---------- No entry twice in the vector ----------

  ghost predicate Distinct(ids: seq<nat>) {
    forall i, j :: 0 <= i < j < |ids| ==> ids[i] != ids[j]
  }

  lemma {:induction false} SurvivorsDistinct(s: State, target: Target, ids: seq<nat>)
    requires Distinct(ids)
    ensures Distinct(Survivors(s, target, ids))
    decreases |ids|
  {
    if ids == [] {
    } else {
      var front := ids[..|ids| - 1];
      SurvivorsDistinct(s, target, front);
      SurvivorsAre(s, target, front);
    }
  }

  lemma StepDistinct(s: State, a: Action)
    requires Inv(s) && Distinct(s.live)
    ensures Distinct(Step(s, a).live)
  {
    if a.Erase? && a.t in s.threads && s.threads[a.t].EraseHeld? {
      SurvivorsDistinct(s, s.threads[a.t].target, s.live);
    }
  }

  /** In every reachable state the entries in the vector are different ones. */
  lemma {:induction false} LiveDistinct(actions: seq<Action>)
    ensures Distinct(Run(Initial, actions).live)
    decreases |actions|
  {
    if actions == [] {
    } else {
      RunInv(actions[..|actions| - 1]);
      LiveDistinct(actions[..|actions| - 1]);
      StepDistinct(Run(Initial, actions[..|actions| - 1]), actions[|actions| - 1]);
    }
  }

  // ---------- Removal ----------

  predicate Named(s: State, name: string, id: nat) {
    id < |s.table| && s.table[id].name == name
  }

  predicate Marked(s: State, id: nat) {
    id < |s.table| && s.table[id].marked
  }

  /** Place `k` of the vector holds the first entry of this name that is not marked. */
  ghost predicate FirstUnmarked(s: State, name: string, k: nat) {
    && k < |s.live| && Named(s, name, s.live[k]) && !Marked(s, s.live[k])
    && NoneUnmarked(s, name, k)
  }

  ghost predicate NoneUnmarked(s: State, name: string, before: nat) {
    forall j :: 0 <= j < before && j < |s.live| ==> !Named(s, name, s.live[j]) || Marked(s, s.live[j])
  }

  /** The ids without those in the set, in order. */
  function Without(ids: seq<nat>, gone: set<nat>): seq<nat> {
    if ids == [] then []
    else
      var last := ids[|ids| - 1];
      Without(ids[..|ids| - 1], gone) + if last in gone then [] else [last]
  }

  ghost function AllMarked(s: State): set<nat> {
    set id | id in s.live && Marked(s, id)
  }

  ghost function MarkedNamed(s: State, name: string): set<nat> {
    set id | id in s.live && Marked(s, id) && Named(s, name, id)
  }

  /** One thread's whole removal: its two critical sections. */
  function Removal(t: nat, target: Target): seq<Action> {
    Search(t, target) + Erasure(t)
  }

  function Search(t: nat, target: Target): seq<Action> {
    [] + [BeginRemove(t, target)] + [Mark(t)]
  }

  function Erasure(t: nat): seq<Action> {
    [] + [BeginErase(t)] + [Erase(t)]
  }

  lemma {:induction false} FindsFirst(s: State, name: string, from: nat, k: nat)
    requires FirstUnmarked(s, name, k) && from <= k
    ensures FindByName(s, name, from) == Some(s.live[k])
    decreases k - from
  {
    if from == k {
    } else {
      FindsFirst(s, name, from + 1, k);
    }
  }

  lemma {:induction false} FindsNone(s: State, name: string, from: nat)
    requires NoneUnmarked(s, name, |s.live|)
    ensures FindByName(s, name, from) == None
    decreases |s.live| - from
  {
    if from >= |s.live| {
    } else {
      FindsNone(s, name, from + 1);
    }
  }

  lemma {:induction false} SurvivorsWithout(s: State, target: Target, ids: seq<nat>, gone: set<nat>)
    requires forall id :: id in ids ==> (Erases(s, target, id) <==> id in gone)
    ensures Survivors(s, target, ids) == Without(ids, gone)
    decreases |ids|
  {
    if ids == [] {
    } else {
      assert ids[|ids| - 1] in ids;
      SurvivorsWithout(s, target, ids[..|ids| - 1], gone);
    }
  }

  /** The state after marking entry `id`, with the mutex free and the caller waiting. */
  function AfterMark(s: State, t: nat, target: Target, id: nat): State {
    s.(table := MarkedTable(s.table, [id]), threads := s.threads[t := Waiting(target, id)])
  }

  /** What the first critical section finds; the source searches by name or tests the index. */
  function Sought(s: State, target: Target): Option<nat> {
    match target
    case ByName(name) => FindByName(s, name, 0)
    case ByIndex(i) => if i < |s.live| then Some(s.live[i]) else None
  }

  lemma FirstSection(s: State, t: nat, target: Target)
    requires LockFree(s) && t !in s.threads
    ensures Run(s, Search(t, target))
         == if Sought(s, target).None? then s else AfterMark(s, t, target, Sought(s, target).value)
  {
    var held := s.(threads := s.threads[t := MarkHeld(target)], writer := Some(t));
    Then(s, [], BeginRemove(t, target), s, held);
    var next := Step(held, Mark(t));
    assert held.threads - {t} == s.threads;
    assert held.threads[t := MarkHeld(target)] == held.threads;
    if Sought(s, target).None? {
      SearchIgnoresLock(s, held, target, 0);
      assert next == s;
    } else {
      SearchIgnoresLock(s, held, target, 0);
      var id := Sought(s, target).value;
      assert held.threads[t := Waiting(target, id)] == s.threads[t := Waiting(target, id)];
      assert next == AfterMark(s, t, target, id);
    }
    Then(s, [] + [BeginRemove(t, target)], Mark(t), held, next);
  }

  lemma {:induction false} SearchIgnoresLock(s: State, u: State, target: Target, from: nat)
    requires u.table == s.table && u.live == s.live
    ensures target.ByName? ==> FindByName(u, target.name, from) == FindByName(s, target.name, from)
    decreases |s.live| - from
  {
    if from >= |s.live| {
    } else {
      SearchIgnoresLock(s, u, target, from + 1);
    }
  }

  lemma SecondSection(s: State, t: nat, target: Target, id: nat, gone: set<nat>)
    requires LockFree(s) && t !in s.threads
    requires var m := AfterMark(s, t, target, id);
             forall x :: x in s.live ==> (Erases(m, target, x) <==> x in gone)
    ensures Run(AfterMark(s, t, target, id), Erasure(t))
         == s.(table := MarkedTable(s.table, [id]), live := Without(s.live, gone))
  {
    var m := AfterMark(s, t, target, id);
    var held := m.(threads := m.threads[t := EraseHeld(target)], writer := Some(t));
    Then(m, [], BeginErase(t), m, held);
    assert held.threads - {t} == s.threads;
    forall x | x in s.live
      ensures Erases(held, target, x) <==> x in gone
    {
      assert Erases(held, target, x) == Erases(m, target, x);
    }
    SurvivorsWithout(held, target, s.live, gone);
    Then(m, [] + [BeginErase(t)], Erase(t), held, Step(held, Erase(t)));
  }

  lemma WholeRemoval(s: State, t: nat, target: Target)
    ensures Run(s, Removal(t, target)) == Run(Run(s, Search(t, target)), Erasure(t))
  {
    RunAppend(s, Search(t, target), Erasure(t));
  }

  lemma NotFoundRuns(s: State, t: nat)
    requires t !in s.threads
    ensures Run(s, Erasure(t)) == s
  {
    Then(s, [], BeginErase(t), s, s);
    Then(s, [] + [BeginErase(t)], Erase(t), s, s);
  }

  /** A removal by name in any reachable state with the lock free: if the name has an unmarked entry in
      the vector, its first one is marked and leaves, together with the marked ones of that name and
      nothing else; if it has none, nothing changes. */
  lemma RemoveByNameSucceeds(actions: seq<Action>, t: nat, name: string)
    requires var s := Run(Initial, actions); LockFree(s) && t !in s.threads
    ensures var s := Run(Initial, actions);
            var u := Run(s, Removal(t, ByName(name)));
            && (NoneUnmarked(s, name, |s.live|) ==> u == s)
            && (t in Run(s, Search(t, ByName(name))).threads <==> !NoneUnmarked(s, name, |s.live|))
            && forall k: nat :: FirstUnmarked(s, name, k) ==>
                 && u.live == Without(s.live, {s.live[k]} + MarkedNamed(s, name))
                 && u.table == s.table[s.live[k] := s.table[s.live[k]].(marked := true)]
                 && u == s.(live := u.live, table := u.table)
  {
    var s := Run(Initial, actions);
    if NoneUnmarked(s, name, |s.live|) {
      RemoveFindsNone(s, t, name);
    } else {
      var k := FirstPlace(s, name, |s.live|);
      RemoveFindsFirst(s, t, name, k);
    }
    forall k: nat | FirstUnmarked(s, name, k)
      ensures var u := Run(s, Removal(t, ByName(name)));
              && u.live == Without(s.live, {s.live[k]} + MarkedNamed(s, name))
              && u.table == s.table[s.live[k] := s.table[s.live[k]].(marked := true)]
              && u == s.(live := u.live, table := u.table)
    {
      RemoveFindsFirst(s, t, name, k);
    }
  }

  lemma RemoveFindsNone(s: State, t: nat, name: string)
    requires LockFree(s) && t !in s.threads && NoneUnmarked(s, name, |s.live|)
    ensures Run(s, Search(t, ByName(name))) == s && Run(s, Removal(t, ByName(name))) == s
  {
    FindsNone(s, name, 0);
    FirstSection(s, t, ByName(name));
    WholeRemoval(s, t, ByName(name));
    NotFoundRuns(s, t);
  }

  lemma RemoveFindsFirst(s: State, t: nat, name: string, k: nat)
    requires LockFree(s) && t !in s.threads && FirstUnmarked(s, name, k)
    ensures t in Run(s, Search(t, ByName(name))).threads
    ensures Run(s, Removal(t, ByName(name)))
         == s.(live := Without(s.live, {s.live[k]} + MarkedNamed(s, name)),
               table := s.table[s.live[k] := s.table[s.live[k]].(marked := true)])
  {
    var id, gone := s.live[k], {s.live[k]} + MarkedNamed(s, name);
    FindsFirst(s, name, 0, k);
    FirstSection(s, t, ByName(name));
    WholeRemoval(s, t, ByName(name));
    MarksOne(s.table, id);
    ErasesNamed(s, t, name, id);
    SecondSection(s, t, ByName(name), id, gone);
  }

  lemma ErasesNamed(s: State, t: nat, name: string, id: nat)
    requires Named(s, name, id)
    ensures var m := AfterMark(s, t, ByName(name), id);
            forall x :: x in s.live ==> (Erases(m, ByName(name), x) <==> x in {id} + MarkedNamed(s, name))
  {
    MarksOne(s.table, id);
  }

  lemma {:induction false} FirstPlace(s: State, name: string, before: nat) returns (k: nat)
    requires !NoneUnmarked(s, name, before)
    ensures FirstUnmarked(s, name, k)
    decreases before
  {
    assert before > 0;
    if !NoneUnmarked(s, name, before - 1) {
      k := FirstPlace(s, name, before - 1);
    } else {
      k := before - 1;
    }
  }

  lemma MarksOne(table: seq<Entry>, id: nat)
    requires id < |table|
    ensures MarkedTable(table, [id]) == table[id := table[id].(marked := true)]
  {
  }

  /** A removal by index in any reachable state with the lock free takes out the entry there, together
      with all marked ones; an index beyond the vector changes nothing. */
  lemma RemoveByIndexSucceeds(actions: seq<Action>, t: nat, i: nat)
    requires var s := Run(Initial, actions); LockFree(s) && t !in s.threads
    ensures var s := Run(Initial, actions);
            var u := Run(s, Removal(t, ByIndex(i)));
            && (i >= |s.live| ==> u == s)
            && (i < |s.live| ==>
                && s.live[i] < |s.table|
                && u.live == Without(s.live, {s.live[i]} + AllMarked(s))
                && u.table == s.table[s.live[i] := s.table[s.live[i]].(marked := true)]
                && u == s.(live := u.live, table := u.table))
  {
    RunInv(actions);
    var s := Run(Initial, actions);
    var target := ByIndex(i);
    FirstSection(s, t, target);
    WholeRemoval(s, t, target);
    if i >= |s.live| {
      NotFoundRuns(s, t);
    } else {
      forall x | x in s.live
        ensures s.table[x].refs == 0
      {
        NobodyGuards(s, x);
      }
      SecondSection(s, t, target, s.live[i], {s.live[i]} + AllMarked(s));
      MarksOne(s.table, s.live[i]);
    }
  }

  lemma NobodyGuards(s: State, e: nat)
    requires Inv(s) && LockFree(s) && e < |s.table|
    ensures s.table[e].refs == 0
  {
    forall t | t in s.threads
      ensures !s.threads[t].Guards(e)
    {
      assert t !in s.readers;
    }
    assert GuardsOn(s, e) == {};
  }

  // ---------- Adding and clearing ----------

  /** A new sink goes to the end of the vector, unmarked and unused. */
  lemma AddSinkSucceeds(s: State, name: string, present: bool)
    requires LockFree(s)
    ensures Step(s, AddSink(name, present))
         == s.(table := s.table + [Entry(name, present, false, 0)], live := s.live + [|s.table|])
  {
  }

  /** A clear in any reachable state with the lock free empties the vector and marks what was in it. */
  lemma ClearSucceeds(actions: seq<Action>, t: nat)
    requires var s := Run(Initial, actions); LockFree(s) && t !in s.threads
    ensures var s := Run(Initial, actions);
            var u := Run(s, [] + [BeginClear(t)] + [MarkAll(t)] + [ClearAll(t)]);
            && u.live == [] && |u.table| == |s.table| && u == s.(live := [], table := u.table)
            && forall e :: 0 <= e < |s.table| ==> u.table[e] == s.table[e].(marked := s.table[e].marked || e in s.live)
  {
    var s := Run(Initial, actions);
    ClearRuns(Run(Initial, actions), t);
  }

  lemma ClearRuns(s: State, t: nat)
    requires LockFree(s) && t !in s.threads
    ensures Run(s, [] + [BeginClear(t)] + [MarkAll(t)] + [ClearAll(t)])
         == s.(live := [], table := MarkedTable(s.table, s.live))
  {
    var held := s.(threads := s.threads[t := ClearHeld], writer := Some(t));
    var marked := s.(threads := s.threads[t := DrainHeld], writer := Some(t), table := MarkedTable(s.table, s.live));
    Then(s, [], BeginClear(t), s, held);
    assert held.threads[t := DrainHeld] == s.threads[t := DrainHeld];
    Then(s, [] + [BeginClear(t)], MarkAll(t), held, marked);
    assert marked.threads - {t} == s.threads;
    Then(s, [] + [BeginClear(t)] + [MarkAll(t)], ClearAll(t), marked,
         s.(live := [], table := MarkedTable(s.table, s.live)));
  }

  // ---------- A log call ----------

  /** The entries a log call writes to: those that hold a sink, are not marked, and do not stand at a
      place where a level override keeps the record out. */
  function Writable(table: seq<Entry>, ids: seq<nat>, quiet: set<nat>): seq<nat> {
    if ids == [] then []
    else
      var last := ids[|ids| - 1];
      Writable(table, ids[..|ids| - 1], quiet)
      + if last < |table| && table[last].present && !table[last].marked && |ids| - 1 !in quiet then [last] else []
  }

  /** The steps for one place of the vector; those not enabled change nothing. */
  function Visit(t: nat, skips: bool): seq<Action> {
    Acquire(t, skips) + Deliver(t)
  }

  function Acquire(t: nat, skips: bool): seq<Action> {
    [] + [TestMarked(t)] + [if skips then SkipByLevel(t) else MakeGuard(t)]
  }

  function Deliver(t: nat): seq<Action> {
    [] + [TestGuard(t)] + [FinishWrite(t)] + [DropGuard(t)]
  }

  function Visits(t: nat, n: nat, quiet: set<nat>): seq<Action> {
    if n == 0 then [] else Visits(t, n - 1, quiet) + Visit(t, n - 1 in quiet)
  }

  /** One thread's whole log call over `n` places, those in `quiet` skipped by a level override. */
  function LogCall(t: nat, n: nat, quiet: set<nat>): seq<Action> {
    [] + [BeginLog(t)] + Visits(t, n, quiet) + [EndLog(t)]
  }

  /** The state with `i` places visited. */
  function Visited(s: State, t: nat, i: nat, quiet: set<nat>): State
    requires i <= |s.live|
  {
    s.(readers := s.readers + {t}, threads := s.threads[t := LogLoop(i)],
       writes := s.writes + Writable(s.table, s.live[..i], quiet))
  }

  /** The place is skipped by the level override. */
  lemma VisitQuiet(v: State, t: nat, i: nat)
    requires t in v.threads && v.threads[t] == LogLoop(i) && i < |v.live|
    requires v.live[i] < |v.table| && !v.table[v.live[i]].marked
    ensures Run(v, Visit(t, true)) == At(v, t, LogLoop(i + 1))
  {
    var u := At(v, t, LogLoop(i + 1));
    UnmarkedIsFound(v, t, i);
    QuietIsPassed(v, t, i, v.live[i]);
    Two(v, TestMarked(t), SkipByLevel(t), At(v, t, LogUnmarked(i, v.live[i])), u);
    NothingToDeliver(u, t, i + 1);
    Onward(v, Acquire(t, true), Deliver(t), u, u);
  }

  lemma QuietIsPassed(v: State, t: nat, i: nat, id: nat)
    ensures Step(At(v, t, LogUnmarked(i, id)), SkipByLevel(t)) == At(v, t, LogLoop(i + 1))
  {
    assert v.threads[t := LogUnmarked(i, id)][t := LogLoop(i + 1)] == v.threads[t := LogLoop(i + 1)];
  }

  lemma VisitMarked(v: State, t: nat, i: nat, skips: bool)
    requires t in v.threads && v.threads[t] == LogLoop(i) && i < |v.live|
    requires v.live[i] < |v.table| && v.table[v.live[i]].marked
    ensures Run(v, Visit(t, skips)) == At(v, t, LogLoop(i + 1))
  {
    var u := At(v, t, LogLoop(i + 1));
    AcquireMarked(v, t, i, skips);
    NothingToDeliver(u, t, i + 1);
    Onward(v, Acquire(t, skips), Deliver(t), u, u);
  }

  lemma AcquireMarked(v: State, t: nat, i: nat, skips: bool)
    requires t in v.threads && v.threads[t] == LogLoop(i) && i < |v.live|
    requires v.live[i] < |v.table| && v.table[v.live[i]].marked
    ensures Run(v, Acquire(t, skips)) == At(v, t, LogLoop(i + 1))
  {
    MarkedIsPassed(v, t, i);
    Two(v, TestMarked(t), if skips then SkipByLevel(t) else MakeGuard(t), At(v, t, LogLoop(i + 1)), At(v, t, LogLoop(i + 1)));
  }

  lemma MarkedIsPassed(v: State, t: nat, i: nat)
    requires t in v.threads && v.threads[t] == LogLoop(i) && i < |v.live|
    requires v.live[i] < |v.table| && v.table[v.live[i]].marked
    ensures var u := At(v, t, LogLoop(i + 1)); Step(v, TestMarked(t)) == u && Step(u, MakeGuard(t)) == u && Step(u, SkipByLevel(t)) == u
  {
  }

  lemma Two(s: State, a: Action, b: Action, mid: State, next: State)
    requires Step(s, a) == mid && Step(mid, b) == next
    ensures Run(s, [] + [a] + [b]) == next
  {
    Then(s, [], a, s, mid);
    Then(s, [] + [a], b, mid, next);
  }

  lemma NothingToDeliver(u: State, t: nat, i: nat)
    requires t in u.threads && u.threads[t] == LogLoop(i)
    ensures Run(u, Deliver(t)) == u
  {
    assert Step(u, TestGuard(t)) == u && Step(u, FinishWrite(t)) == u && Step(u, DropGuard(t)) == u;
    StaysPut(u, Deliver(t));
  }

  lemma {:induction false} StaysPut(u: State, actions: seq<Action>)
    requires forall i :: 0 <= i < |actions| ==> Step(u, actions[i]) == u
    ensures Run(u, actions) == u
    decreases |actions|
  {
    if actions == [] {
    } else {
      StaysPut(u, actions[..|actions| - 1]);
    }
  }

  /** The state in which `t` holds a guard on the unmarked entry `id`. */
  function Guarded(v: State, t: nat, i: nat, id: nat): State
    requires id < |v.table|
  {
    At(v.(table := v.table[id := v.table[id].(refs := v.table[id].refs + 1)]), t, LogGuarded(i, id))
  }

  lemma AcquireUnmarked(v: State, t: nat, i: nat)
    requires t in v.threads && v.threads[t] == LogLoop(i) && i < |v.live|
    requires v.live[i] < |v.table| && !v.table[v.live[i]].marked
    ensures Run(v, Acquire(t, false)) == Guarded(v, t, i, v.live[i])
  {
    var id := v.live[i];
    UnmarkedIsFound(v, t, i);
    GuardMade(v, t, i, id);
    Two(v, TestMarked(t), MakeGuard(t), At(v, t, LogUnmarked(i, id)), Guarded(v, t, i, id));
  }

  lemma UnmarkedIsFound(v: State, t: nat, i: nat)
    requires t in v.threads && v.threads[t] == LogLoop(i) && i < |v.live|
    requires v.live[i] < |v.table| && !v.table[v.live[i]].marked
    ensures Step(v, TestMarked(t)) == At(v, t, LogUnmarked(i, v.live[i]))
  {
  }

  lemma GuardMade(v: State, t: nat, i: nat, id: nat)
    requires id < |v.table|
    ensures Step(At(v, t, LogUnmarked(i, id)), MakeGuard(t)) == Guarded(v, t, i, id)
  {
    assert v.threads[t := LogUnmarked(i, id)][t := LogGuarded(i, id)] == v.threads[t := LogGuarded(i, id)];
  }

  lemma DeliverGuarded(v: State, t: nat, i: nat, id: nat)
    requires id < |v.table| && !v.table[id].marked
    ensures Run(Guarded(v, t, i, id), Deliver(t))
         == At(v, t, LogLoop(i + 1)).(writes := v.writes + if v.table[id].present then [id] else [])
  {
    var g := Guarded(v, t, i, id);
    var writes := v.writes + if v.table[id].present then [id] else [];
    var writing := if v.table[id].present then At(g, t, LogWriting(i, id)).(writes := writes)
                   else At(g, t, LogWritten(i, id)).(writes := writes);
    var written := At(g, t, LogWritten(i, id)).(writes := writes);
    var done := At(v, t, LogLoop(i + 1)).(writes := writes);
    GuardedOnward(g, t, i, id, writing);
    Then(g, [], TestGuard(t), g, writing);
    WritingOnward(writing, written, t, i, id);
    Then(g, [] + [TestGuard(t)], FinishWrite(t), writing, written);
    GuardDropped(v, written, done, t, i, id);
    Then(g, [] + [TestGuard(t)] + [FinishWrite(t)], DropGuard(t), written, done);
  }

  lemma GuardDropped(v: State, w: State, done: State, t: nat, i: nat, id: nat)
    requires id < |v.table| && w == At(Guarded(v, t, i, id), t, LogWritten(i, id)).(writes := w.writes)
    requires done == At(v, t, LogLoop(i + 1)).(writes := w.writes)
    ensures Step(w, DropGuard(t)) == done
  {
    assert w.table[id := w.table[id].(refs := w.table[id].refs - 1)] == v.table;
    assert w.threads[t := LogLoop(i + 1)] == done.threads;
  }

  lemma VisitUnmarked(v: State, t: nat, i: nat)
    requires t in v.threads && v.threads[t] == LogLoop(i) && i < |v.live|
    requires v.live[i] < |v.table| && !v.table[v.live[i]].marked
    ensures Run(v, Visit(t, false))
         == At(v, t, LogLoop(i + 1)).(writes := v.writes + if v.table[v.live[i]].present then [v.live[i]] else [])
  {
    var done := At(v, t, LogLoop(i + 1)).(writes := v.writes + if v.table[v.live[i]].present then [v.live[i]] else []);
    AcquireUnmarked(v, t, i);
    DeliverGuarded(v, t, i, v.live[i]);
    Onward(v, Acquire(t, false), Deliver(t), Guarded(v, t, i, v.live[i]), done);
  }

  lemma GuardedOnward(g: State, t: nat, i: nat, id: nat, next: State)
    requires t in g.threads && g.threads[t] == LogGuarded(i, id) && id < |g.table| && !g.table[id].marked
    requires next == if g.table[id].present then At(g, t, LogWriting(i, id)).(writes := g.writes + [id])
                     else At(g, t, LogWritten(i, id)).(writes := g.writes + [])
    ensures Step(g, TestGuard(t)) == next
  {
    assert g.writes + [] == g.writes;
  }

  lemma WritingOnward(w: State, next: State, t: nat, i: nat, id: nat)
    requires t in w.threads && (w.threads[t] == LogWriting(i, id) || w.threads[t] == LogWritten(i, id))
    requires next == At(w, t, LogWritten(i, id))
    ensures Step(w, FinishWrite(t)) == next
  {
    assert w.threads[t] == LogWritten(i, id) ==> w.threads[t := LogWritten(i, id)] == w.threads;
  }

  lemma VisitNext(s: State, t: nat, i: nat, quiet: set<nat>)
    requires i < |s.live| && s.live[i] < |s.table|
    ensures Run(Visited(s, t, i, quiet), Visit(t, i in quiet)) == Visited(s, t, i + 1, quiet)
  {
    var v, id := Visited(s, t, i, quiet), s.live[i];
    VisitedNext(s, t, i, quiet);
    if s.table[id].marked {
      VisitMarked(v, t, i, i in quiet);
    } else if i in quiet {
      VisitQuiet(v, t, i);
    } else {
      VisitUnmarked(v, t, i);
    }
  }

  lemma VisitedNext(s: State, t: nat, i: nat, quiet: set<nat>)
    requires i < |s.live| && s.live[i] < |s.table|
    ensures var v, id := Visited(s, t, i, quiet), s.live[i];
            var more := if s.table[id].present && !s.table[id].marked && i !in quiet then [id] else [];
            && Visited(s, t, i + 1, quiet) == At(v, t, LogLoop(i + 1)).(writes := v.writes + more)
            && (more == [] ==> Visited(s, t, i + 1, quiet) == At(v, t, LogLoop(i + 1)))
  {
    var v, id := Visited(s, t, i, quiet), s.live[i];
    var more := if s.table[id].present && !s.table[id].marked && i !in quiet then [id] else [];
    assert s.live[..i + 1][..i] == s.live[..i];
    assert s.threads[t := LogLoop(i)][t := LogLoop(i + 1)] == s.threads[t := LogLoop(i + 1)];
    assert Writable(s.table, s.live[..i + 1], quiet) == Writable(s.table, s.live[..i], quiet) + more;
    assert v.writes + more == s.writes + (Writable(s.table, s.live[..i], quiet) + more);
    assert v.writes + [] == v.writes;
  }

  lemma {:induction false} VisitAll(s: State, t: nat, n: nat, quiet: set<nat>)
    requires n <= |s.live| && forall i :: 0 <= i < |s.live| ==> s.live[i] < |s.table|
    ensures AllVisited(s, t, n, quiet)
    decreases n
  {
    if n == 0 {
    } else {
      VisitAll(s, t, n - 1, quiet);
      VisitOneMore(s, t, n - 1, quiet);
    }
  }

  ghost predicate AllVisited(s: State, t: nat, n: nat, quiet: set<nat>)
    requires n <= |s.live|
  {
    Run(Visited(s, t, 0, quiet), Visits(t, n, quiet)) == Visited(s, t, n, quiet)
  }

  lemma VisitOneMore(s: State, t: nat, n: nat, quiet: set<nat>)
    requires n < |s.live| && s.live[n] < |s.table| && AllVisited(s, t, n, quiet)
    ensures AllVisited(s, t, n + 1, quiet)
  {
    VisitNext(s, t, n, quiet);
    Onward(Visited(s, t, 0, quiet), Visits(t, n, quiet), Visit(t, n in quiet), Visited(s, t, n, quiet), Visited(s, t, n + 1, quiet));
  }

  lemma Onward(s: State, front: seq<Action>, more: seq<Action>, mid: State, next: State)
    requires Run(s, front) == mid && Run(mid, more) == next
    ensures Run(s, front + more) == next
  {
    RunAppend(s, front, more);
  }

  /** A log call in any reachable state without a writer: it writes once, in order, to each entry of
      the vector that holds a sink, is not marked and is not kept quiet by a level override, and leaves
      everything else as it was. */
  lemma LogCallWritesAll(actions: seq<Action>, t: nat, quiet: set<nat>)
    requires var s := Run(Initial, actions); s.writer.None? && t !in s.threads
    ensures var s := Run(Initial, actions);
            Run(s, LogCall(t, |s.live|, quiet)) == s.(writes := s.writes + Writable(s.table, s.live, quiet))
  {
    RunInv(actions);
    LogCallRuns(Run(Initial, actions), t, quiet);
  }

  lemma LogBegins(s: State, t: nat, quiet: set<nat>)
    requires s.writer.None? && t !in s.threads
    ensures Step(s, BeginLog(t)) == Visited(s, t, 0, quiet)
  {
    assert s.live[..0] == [] && s.writes + [] == s.writes;
  }

  lemma LogEnds(s: State, t: nat, quiet: set<nat>)
    requires t !in s.threads && t !in s.readers
    ensures Step(Visited(s, t, |s.live|, quiet), EndLog(t)) == s.(writes := s.writes + Writable(s.table, s.live, quiet))
  {
    var v := Visited(s, t, |s.live|, quiet);
    assert s.live[..|s.live|] == s.live;
    assert v.threads - {t} == s.threads && v.readers - {t} == s.readers;
  }

  lemma LogCallRuns(s: State, t: nat, quiet: set<nat>)
    requires Inv(s) && s.writer.None? && t !in s.threads
    ensures Run(s, LogCall(t, |s.live|, quiet)) == s.(writes := s.writes + Writable(s.table, s.live, quiet))
  {
    var n := |s.live|;
    LogBegins(s, t, quiet);
    Then(s, [], BeginLog(t), s, Visited(s, t, 0, quiet));
    VisitAll(s, t, n, quiet);
    Onward(s, [] + [BeginLog(t)], Visits(t, n, quiet), Visited(s, t, 0, quiet), Visited(s, t, n, quiet));
    LogEnds(s, t, quiet);
    Then(s, [] + [BeginLog(t)] + Visits(t, n, quiet), EndLog(t), Visited(s, t, n, quiet), s.(writes := s.writes + Writable(s.table, s.live, quiet)));
  }
}
