// Hot removal of sinks: log calls, removals and clears of one logger, interleaved.

module SinkRemoval {
  import opened LogLevels

  /** An entry; `present` is false if it holds no sink. */
  datatype Entry = Entry(name: string, present: bool, marked: bool, refs: int)

  datatype Target = ByName(name: string) | ByIndex(index: nat)

  /** Where a thread stands; no entry in the thread map means outside the logger.
      The log states hold the shared lock, the held states the exclusive one. */
  datatype Pc =
    | LogLoop(i: nat)
    | LogUnmarked(i: nat, id: nat)
    | LogGuarded(i: nat, id: nat)
    | LogWriting(i: nat, id: nat)
    | LogWritten(i: nat, id: nat)
    | MarkHeld(target: Target)
    | Waiting(target: Target, id: nat)
    | EraseHeld(target: Target)
    | ClearHeld
    | DrainHeld
  {
    predicate Shared() {
      LogLoop? || LogUnmarked? || LogGuarded? || LogWriting? || LogWritten?
    }

    predicate Exclusive() {
      MarkHeld? || EraseHeld? || ClearHeld? || DrainHeld?
    }

    /** The thread owns a live guard on entry `e`. */
    predicate Guards(e: nat) {
      (LogGuarded? || LogWriting? || LogWritten?) && id == e
    }
  }

  /** `table` holds every entry ever made, `live` the ids in the logger's vector, `readers` and
      `writer` the owners of the lock; `writes` records the id of every write begun. */
  datatype State = State(table: seq<Entry>, live: seq<nat>, readers: set<nat>, writer: Option<nat>,
                         threads: map<nat, Pc>, writes: seq<nat>)

  datatype Action =
    | AddSink(name: string, present: bool)
    | BeginLog(t: nat)
    | TestMarked(t: nat)
    | SkipByLevel(t: nat)
    | MakeGuard(t: nat)
    | TestGuard(t: nat)
    | FinishWrite(t: nat)
    | DropGuard(t: nat)
    | EndLog(t: nat)
    | BeginRemove(t: nat, target: Target)
    | Mark(t: nat)
    | BeginErase(t: nat)
    | Erase(t: nat)
    | BeginClear(t: nat)
    | MarkAll(t: nat)
    | ClearAll(t: nat)

  const Initial: State := State([], [], {}, None, map[], [])

  predicate LockFree(s: State) {
    s.writer.None? && s.readers == {}
  }

  function At(s: State, t: nat, pc: Pc): State {
    s.(threads := s.threads[t := pc])
  }

  function ReleaseShared(s: State, t: nat): State {
    s.(threads := s.threads - {t}, readers := s.readers - {t})
  }

  function ReleaseExclusive(s: State): State {
    s.(writer := None)
  }

  function Leave(s: State, t: nat): State {
    s.(threads := s.threads - {t})
  }

  function SetEntry(s: State, id: nat, e: Entry): State
    requires id < |s.table|
  {
    s.(table := s.table[id := e])
  }

  /** The first live entry with this name that is not marked. */
  function FindByName(s: State, name: string, from: nat): (r: Option<nat>)
    ensures r.Some? ==> r.value in s.live[if from <= |s.live| then from else |s.live|..]
    ensures r.Some? ==> r.value < |s.table| && s.table[r.value].name == name && !s.table[r.value].marked
    decreases |s.live| - from
  {
    if from >= |s.live| then None
    else
      var id := s.live[from];
      if id < |s.table| && s.table[id].name == name && !s.table[id].marked then Some(id)
      else FindByName(s, name, from + 1)
  }

  function MarkedTable(table: seq<Entry>, ids: seq<nat>): seq<Entry> {
    seq(|table|, i requires 0 <= i < |table| => if i in ids then table[i].(marked := true) else table[i])
  }

  /** What the erase of a removal takes out: by name without looking at the count, by index
      only unused entries. */
  predicate Erases(s: State, target: Target, id: nat) {
    id < |s.table| && s.table[id].marked &&
    match target
    case ByName(name) => s.table[id].name == name
    case ByIndex(_) => s.table[id].refs == 0
  }

  function Survivors(s: State, target: Target, ids: seq<nat>): seq<nat> {
    if ids == [] then []
    else
      var front, last := ids[..|ids| - 1], ids[|ids| - 1];
      Survivors(s, target, front) + if Erases(s, target, last) then [] else [last]
  }

  function LogStep(s: State, a: Action): State {
    match a
    case BeginLog(t) =>
      if t in s.threads || s.writer.Some? then s else At(s, t, LogLoop(0)).(readers := s.readers + {t})
    case TestMarked(t) =>
      if t in s.threads && s.threads[t].LogLoop? && s.threads[t].i < |s.live| && s.live[s.threads[t].i] < |s.table| then
        var i := s.threads[t].i;
        if s.table[s.live[i]].marked then At(s, t, LogLoop(i + 1)) else At(s, t, LogUnmarked(i, s.live[i]))
      else s
    case SkipByLevel(t) =>
      if t in s.threads && s.threads[t].LogUnmarked? then At(s, t, LogLoop(s.threads[t].i + 1)) else s
    case MakeGuard(t) =>
      if t in s.threads && s.threads[t].LogUnmarked? && s.threads[t].id < |s.table| then
        var pc := s.threads[t];
        At(SetEntry(s, pc.id, s.table[pc.id].(refs := s.table[pc.id].refs + 1)), t, LogGuarded(pc.i, pc.id))
      else s
    case TestGuard(t) =>
      if t in s.threads && s.threads[t].LogGuarded? && s.threads[t].id < |s.table| then
        var pc := s.threads[t];
        if s.table[pc.id].present && !s.table[pc.id].marked then
          At(s, t, LogWriting(pc.i, pc.id)).(writes := s.writes + [pc.id])
        else At(s, t, LogWritten(pc.i, pc.id))
      else s
    case FinishWrite(t) =>
      if t in s.threads && s.threads[t].LogWriting? then At(s, t, LogWritten(s.threads[t].i, s.threads[t].id)) else s
    case DropGuard(t) =>
      if t in s.threads && s.threads[t].LogWritten? && s.threads[t].id < |s.table| then
        var pc := s.threads[t];
        At(SetEntry(s, pc.id, s.table[pc.id].(refs := s.table[pc.id].refs - 1)), t, LogLoop(pc.i + 1))
      else s
    case EndLog(t) =>
      if t in s.threads && s.threads[t].LogLoop? && s.threads[t].i >= |s.live| then ReleaseShared(s, t) else s
    case _ => s
  }

  /** The drain waits may end at any time, by success or timeout. */
  function RemoveStep(s: State, a: Action): State {
    match a
    case AddSink(name, present) =>
      if LockFree(s) then s.(table := s.table + [Entry(name, present, false, 0)], live := s.live + [|s.table|]) else s
    case BeginRemove(t, target) =>
      if t in s.threads || !LockFree(s) then s else At(s, t, MarkHeld(target)).(writer := Some(t))
    case Mark(t) =>
      if t in s.threads && s.threads[t].MarkHeld? then
        var target := s.threads[t].target;
        var found := match target
          case ByName(name) => FindByName(s, name, 0)
          case ByIndex(i) => if i < |s.live| then Some(s.live[i]) else None;
        if found.None? then Leave(ReleaseExclusive(s), t)
        else At(ReleaseExclusive(s).(table := MarkedTable(s.table, [found.value])), t, Waiting(target, found.value))
      else s
    case BeginErase(t) =>
      if t in s.threads && s.threads[t].Waiting? && LockFree(s) then
        At(s, t, EraseHeld(s.threads[t].target)).(writer := Some(t))
      else s
    case Erase(t) =>
      if t in s.threads && s.threads[t].EraseHeld? then
        Leave(ReleaseExclusive(s), t).(live := Survivors(s, s.threads[t].target, s.live))
      else s
    case BeginClear(t) =>
      if t in s.threads || !LockFree(s) then s else At(s, t, ClearHeld).(writer := Some(t))
    case MarkAll(t) =>
      if t in s.threads && s.threads[t].ClearHeld? then At(s, t, DrainHeld).(table := MarkedTable(s.table, s.live)) else s
    case ClearAll(t) =>
      if t in s.threads && s.threads[t].DrainHeld? then Leave(ReleaseExclusive(s), t).(live := []) else s
    case _ => s
  }

  /** An action that is not enabled changes nothing. */
  function Step(s: State, a: Action): State {
    RemoveStep(LogStep(s, a), a)
  }

  function Run(s: State, actions: seq<Action>): State
    decreases |actions|
  {
    if actions == [] then s else Step(Run(s, actions[..|actions| - 1]), actions[|actions| - 1])
  }

  // ---------- The invariant ----------

  ghost function GuardsOn(s: State, e: nat): set<nat> {
    set t | t in s.threads && s.threads[t].Guards(e)
  }

  ghost predicate LockInv(s: State) {
    && (s.writer.Some? ==> s.readers == {})
    && (forall t :: t in s.readers <==> t in s.threads && s.threads[t].Shared())
    && (forall t :: s.writer == Some(t) <==> t in s.threads && s.threads[t].Exclusive())
  }

  /** A thread's entry exists, nobody uses a marked entry, and a removal waits on a marked one. */
  ghost predicate PcOk(table: seq<Entry>, live: seq<nat>, pc: Pc) {
    match pc
    case LogUnmarked(_, id) => id < |table| && !table[id].marked
    case LogGuarded(_, id) => id < |table| && !table[id].marked
    case LogWriting(_, id) => id < |table| && !table[id].marked
    case LogWritten(_, id) => id < |table| && !table[id].marked
    case Waiting(_, id) => id < |table| && table[id].marked
    case DrainHeld => forall i :: 0 <= i < |live| && live[i] < |table| ==> table[live[i]].marked
    case _ => true
  }

  ghost predicate ThreadInv(s: State) {
    && (forall i :: 0 <= i < |s.live| ==> s.live[i] < |s.table|)
    && (forall t :: t in s.threads ==> PcOk(s.table, s.live, s.threads[t]))
  }

  ghost predicate CountInv(s: State) {
    forall e :: 0 <= e < |s.table| ==> s.table[e].refs == |GuardsOn(s, e)|
  }

  ghost predicate Inv(s: State) {
    LockInv(s) && ThreadInv(s) && CountInv(s)
  }

  // ---------- Log steps ----------

  lemma SameGuards(s: State, u: State)
    requires forall t, e :: t in s.threads && s.threads[t].Guards(e) ==> t in u.threads && u.threads[t].Guards(e)
    requires forall t, e :: t in u.threads && u.threads[t].Guards(e) ==> t in s.threads && s.threads[t].Guards(e)
    ensures forall e :: GuardsOn(u, e) == GuardsOn(s, e)
  {
  }

  lemma MakeGuardCounts(s: State, t: nat)
    requires Inv(s) && t in s.threads && s.threads[t].LogUnmarked?
    ensures CountInv(LogStep(s, MakeGuard(t)))
  {
    var pc, u := s.threads[t], LogStep(s, MakeGuard(t));
    assert PcOk(s.table, s.live, pc);
    forall e | 0 <= e < |u.table|
      ensures u.table[e].refs == |GuardsOn(u, e)|
    {
      if e == pc.id {
        assert t !in GuardsOn(s, e);
        assert GuardsOn(u, e) == GuardsOn(s, e) + {t};
      } else {
        assert GuardsOn(u, e) == GuardsOn(s, e);
      }
    }
  }

  lemma DropGuardCounts(s: State, t: nat)
    requires Inv(s) && t in s.threads && s.threads[t].LogWritten?
    ensures CountInv(LogStep(s, DropGuard(t)))
  {
    var pc, u := s.threads[t], LogStep(s, DropGuard(t));
    assert PcOk(s.table, s.live, pc);
    forall e | 0 <= e < |u.table|
      ensures u.table[e].refs == |GuardsOn(u, e)|
    {
      if e == pc.id {
        assert t in GuardsOn(s, e);
        assert GuardsOn(u, e) == GuardsOn(s, e) - {t};
      } else {
        assert GuardsOn(u, e) == GuardsOn(s, e);
      }
    }
  }

  lemma LogStepCounts(s: State, a: Action)
    requires Inv(s)
    ensures CountInv(LogStep(s, a))
  {
    if a.MakeGuard? && a.t in s.threads && s.threads[a.t].LogUnmarked? {
      MakeGuardCounts(s, a.t);
    } else if a.DropGuard? && a.t in s.threads && s.threads[a.t].LogWritten? {
      DropGuardCounts(s, a.t);
    } else {
      SameGuards(s, LogStep(s, a));
    }
  }

  lemma LogStepInv(s: State, a: Action)
    requires Inv(s)
    ensures Inv(LogStep(s, a))
  {
    LogStepCounts(s, a);
    LogStepLocks(s, a);
    LogStepThreads(s, a);
  }

  lemma LogStepLocks(s: State, a: Action)
    requires LockInv(s)
    ensures LockInv(LogStep(s, a))
  {
  }

  lemma LogStepThreads(s: State, a: Action)
    requires ThreadInv(s)
    ensures ThreadInv(LogStep(s, a))
  {
  }

  // ---------- Removal steps ----------

  lemma RemoveStepLocks(s: State, a: Action)
    requires LockInv(s)
    ensures LockInv(RemoveStep(s, a))
  {
  }

  lemma RemoveStepCounts(s: State, a: Action)
    requires Inv(s)
    ensures CountInv(RemoveStep(s, a))
  {
    SameGuards(s, RemoveStep(s, a));
    if a.AddSink? {
      NewEntryUnguarded(s);
    }
  }

  lemma NewEntryUnguarded(s: State)
    requires ThreadInv(s)
    ensures GuardsOn(s, |s.table|) == {}
  {
    forall t | t in s.threads
      ensures !s.threads[t].Guards(|s.table|)
    {
      assert PcOk(s.table, s.live, s.threads[t]);
    }
  }

  lemma {:induction false} SurvivorsAre(s: State, target: Target, ids: seq<nat>)
    ensures forall id :: id in Survivors(s, target, ids) <==> id in ids && !Erases(s, target, id)
  {
    if ids == [] {
    } else {
      SurvivorsAre(s, target, ids[..|ids| - 1]);
      assert ids == ids[..|ids| - 1] + [ids[|ids| - 1]];
    }
  }

  /** Marking under the exclusive lock disturbs nobody. */
  lemma MarkingThreads(s: State, ids: seq<nat>, t: nat)
    requires Inv(s) && t in s.threads && s.threads[t].Exclusive()
    ensures forall x :: x in s.threads && x != t ==> PcOk(MarkedTable(s.table, ids), s.live, s.threads[x])
  {
    assert s.readers == {};
    forall x | x in s.threads && x != t
      ensures PcOk(MarkedTable(s.table, ids), s.live, s.threads[x])
    {
      assert PcOk(s.table, s.live, s.threads[x]) && x !in s.readers;
    }
  }

  lemma EraseThreads(s: State, t: nat)
    requires Inv(s) && t in s.threads && s.threads[t].EraseHeld?
    ensures ThreadInv(RemoveStep(s, Erase(t)))
  {
    SurvivorsAre(s, s.threads[t].target, s.live);
    var u := RemoveStep(s, Erase(t));
    forall i | 0 <= i < |u.live|
      ensures u.live[i] < |u.table|
    {
      assert u.live[i] in s.live;
    }
    forall x | x in u.threads
      ensures PcOk(u.table, u.live, u.threads[x])
    {
      assert PcOk(s.table, s.live, s.threads[x]);
      assert s.writer == Some(t) && !s.threads[x].DrainHeld?;
    }
  }

  lemma RemoveStepThreads(s: State, a: Action)
    requires Inv(s)
    ensures ThreadInv(RemoveStep(s, a))
  {
    match a
    case Mark(t) =>
      if t in s.threads && s.threads[t].MarkHeld? {
        MarkThreads(s, t);
      }
    case MarkAll(t) =>
      if t in s.threads && s.threads[t].ClearHeld? {
        MarkingThreads(s, s.live, t);
      }
    case Erase(t) =>
      if t in s.threads && s.threads[t].EraseHeld? {
        EraseThreads(s, t);
      }
    case ClearAll(t) =>
    case AddSink(_, _) =>
      AddSinkThreads(s, a);
    case _ =>
  }

  lemma AddSinkThreads(s: State, a: Action)
    requires Inv(s) && a.AddSink?
    ensures ThreadInv(RemoveStep(s, a))
  {
    var u := RemoveStep(s, a);
    forall x | x in u.threads
      ensures PcOk(u.table, u.live, u.threads[x])
    {
      assert PcOk(s.table, s.live, s.threads[x]);
      assert u != s ==> s.writer != Some(x);
    }
  }

  lemma MarkThreads(s: State, t: nat)
    requires Inv(s) && t in s.threads && s.threads[t].MarkHeld?
    ensures ThreadInv(RemoveStep(s, Mark(t)))
  {
    var u := RemoveStep(s, Mark(t));
    if t in u.threads {
      var id := u.threads[t].id;
      assert id in [id] && u.table == MarkedTable(s.table, [id]);
      MarkingThreads(s, [id], t);
      assert PcOk(u.table, u.live, u.threads[t]);
    } else {
      assert u.table == s.table && u.threads == s.threads - {t};
      forall x | x in u.threads
        ensures PcOk(u.table, u.live, u.threads[x])
      {
        assert PcOk(s.table, s.live, s.threads[x]);
      }
    }
  }

  lemma StepInv(s: State, a: Action)
    requires Inv(s)
    ensures Inv(Step(s, a))
  {
    LogStepInv(s, a);
    RemoveStepLocks(LogStep(s, a), a);
    RemoveStepCounts(LogStep(s, a), a);
    RemoveStepThreads(LogStep(s, a), a);
  }

  lemma {:induction false} RunInv(actions: seq<Action>)
    ensures Inv(Run(Initial, actions))
    decreases |actions|
  {
    if actions == [] {
    } else {
      RunInv(actions[..|actions| - 1]);
      StepInv(Run(Initial, actions[..|actions| - 1]), actions[|actions| - 1]);
    }
  }

  // ---------- Results ----------

  /** In every interleaving an entry's count is the number of live guards on it, and every
      owner of a guard holds the shared lock. */
  lemma CountsAreLiveGuards(actions: seq<Action>, e: nat)
    requires e < |Run(Initial, actions).table|
    ensures var s := Run(Initial, actions);
            s.table[e].refs == |GuardsOn(s, e)| && GuardsOn(s, e) <= s.readers
  {
    RunInv(actions);
  }

  /** Nothing uses a marked entry, so its count is zero. Hence the drain waits never wait, and the
      guard's second test of the mark never fails. */
  lemma MarkedIsUnused(s: State, e: nat)
    requires Inv(s) && e < |s.table| && s.table[e].marked
    ensures GuardsOn(s, e) == {} && s.table[e].refs == 0
  {
    forall t | t in s.threads
      ensures !s.threads[t].Guards(e)
    {
      assert PcOk(s.table, s.live, s.threads[t]);
    }
  }

  lemma DrainWaitsAreIdle(actions: seq<Action>, t: nat)
    ensures var s := Run(Initial, actions);
            && (t in s.threads && s.threads[t].Waiting? ==>
                s.threads[t].id < |s.table| && s.table[s.threads[t].id].refs == 0)
            && (t in s.threads && s.threads[t].DrainHeld? ==>
                forall i :: 0 <= i < |s.live| ==> s.live[i] < |s.table| && s.table[s.live[i]].refs == 0)
            && (t in s.threads && s.threads[t].LogGuarded? ==>
                s.threads[t].id < |s.table| && !s.table[s.threads[t].id].marked)
  {
    RunInv(actions);
    var s := Run(Initial, actions);
    if t in s.threads {
      assert PcOk(s.table, s.live, s.threads[t]);
      if s.threads[t].Waiting? {
        MarkedIsUnused(s, s.threads[t].id);
      }
      if s.threads[t].DrainHeld? {
        forall i | 0 <= i < |s.live|
          ensures s.live[i] < |s.table| && s.table[s.live[i]].refs == 0
        {
          MarkedIsUnused(s, s.live[i]);
        }
      }
    }
  }

  lemma MarkedStays(s: State, a: Action, e: nat)
    requires Inv(s) && e < |s.table| && s.table[e].marked
    ensures var u := Step(s, a);
            e < |u.table| && u.table[e].marked && u.table[e].name == s.table[e].name
  {
  }

  lemma MarkedIsNotWritten(s: State, a: Action, e: nat)
    requires Inv(s) && e < |s.table| && s.table[e].marked
    ensures var u := Step(s, a);
            u.writes == s.writes || exists id :: u.writes == s.writes + [id] && id != e
  {
    if a.TestGuard? && a.t in s.threads && s.threads[a.t].LogGuarded? {
      assert PcOk(s.table, s.live, s.threads[a.t]);
    }
  }

  /** From `s` to `u` entry `e` stayed marked and no write to it began. */
  ghost predicate QuietSince(s: State, u: State, e: nat) {
    && e < |u.table| && u.table[e].marked
    && |s.writes| <= |u.writes| && u.writes[..|s.writes|] == s.writes
    && forall k :: |s.writes| <= k < |u.writes| ==> u.writes[k] != e
  }

  lemma QuietStep(s: State, u: State, a: Action, e: nat)
    requires Inv(u) && QuietSince(s, u, e)
    ensures QuietSince(s, Step(u, a), e)
  {
    MarkedStays(u, a, e);
    MarkedIsNotWritten(u, a, e);
  }

  lemma {:induction false} QuietRun(s: State, more: seq<Action>, e: nat)
    requires Inv(s) && e < |s.table| && s.table[e].marked
    ensures Inv(Run(s, more)) && QuietSince(s, Run(s, more), e)
    decreases |more|
  {
    if more == [] {
    } else {
      var front, last := more[..|more| - 1], more[|more| - 1];
      QuietRun(s, front, e);
      QuietStep(s, Run(s, front), last, e);
      StepInv(Run(s, front), last);
    }
  }

  lemma RunLast(s: State, front: seq<Action>, last: Action)
    ensures Run(s, front + [last]) == Step(Run(s, front), last)
  {
    assert (front + [last])[..|front|] == front;
  }

  lemma {:induction false} RunAppend(s: State, actions: seq<Action>, more: seq<Action>)
    ensures Run(s, actions + more) == Run(Run(s, actions), more)
    decreases |more|
  {
    if more == [] {
      assert actions + more == actions;
    } else {
      var front, last := more[..|more| - 1], more[|more| - 1];
      assert more == front + [last] && actions + more == (actions + front) + [last];
      RunAppend(s, actions, front);
      RunLast(s, actions + front, last);
      RunLast(Run(s, actions), front, last);
    }
  }

  /** Once an entry is marked, whatever happens next, it stays marked, its count stays zero, and
      no write to its sink ever starts again. */
  lemma NoWriteAfterMark(actions: seq<Action>, more: seq<Action>, e: nat)
    requires e < |Run(Initial, actions).table| && Run(Initial, actions).table[e].marked
    ensures var s, u := Run(Initial, actions), Run(Initial, actions + more);
            QuietSince(s, u, e) && u.table[e].refs == 0
  {
    RunInv(actions);
    RunAppend(Initial, actions, more);
    QuietRun(Run(Initial, actions), more, e);
    MarkedIsUnused(Run(Initial, actions + more), e);
  }

  /** Every step that takes entries out of the vector takes only marked ones that nobody uses,
      although the erase by name never looks at the count; the others stay, in order. */
  lemma RemovalsAreSafe(actions: seq<Action>, a: Action, id: nat)
    ensures var s := Run(Initial, actions);
            var u := Step(s, a);
            id in s.live && id !in u.live ==>
              id < |s.table| && s.table[id].marked && s.table[id].refs == 0 && GuardsOn(s, id) == {}
  {
    RunInv(actions);
    var s := Run(Initial, actions);
    if id in s.live && id !in Step(s, a).live {
      if a.Erase? {
        SurvivorsAre(s, s.threads[a.t].target, s.live);
      } else {
        var i :| 0 <= i < |s.live| && s.live[i] == id;
        assert a.ClearAll? && PcOk(s.table, s.live, s.threads[a.t]);
      }
      MarkedIsUnused(s, id);
    }
  }

  predicate Doomed(s: State, target: Target, id: nat) {
    id < |s.table| && s.table[id].marked && (target.ByName? ==> s.table[id].name == target.name)
  }

  /** An erase by index leaves no marked entry behind, one by name none of that name. */
  lemma EraseIsComplete(actions: seq<Action>, t: nat, id: nat)
    requires var s := Run(Initial, actions); t in s.threads && s.threads[t].EraseHeld?
    ensures var s := Run(Initial, actions);
            var u := Step(s, Erase(t));
            id in u.live <==> id in s.live && !Doomed(s, s.threads[t].target, id)
  {
    RunInv(actions);
    var s := Run(Initial, actions);
    assert ThreadInv(s);
    SurvivorsAre(s, s.threads[t].target, s.live);
    if id < |s.table| && s.table[id].marked {
      MarkedIsUnused(s, id);
    }
  }
}
