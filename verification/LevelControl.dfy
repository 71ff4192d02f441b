// Dynamic, temporary and plain level changes of a logger, with lazy expiry and a bounded history.
// Clock readings are in nanoseconds.

module LevelControl {
  import opened LogLevels

  const NANOS_PER_SECOND: int := 1000000000

  datatype Reason = Given(text: string) | Temporary(text: string, seconds: int) | Cancelled | Expired

  datatype Change = Change(oldLevel: LogLevel, newLevel: LogLevel, time: int, reason: Reason)

  /** `trail` is every notification sent so far; `history` is what the logger still stores. */
  datatype State = State(min: LogLevel, active: bool, original: LogLevel, revert: int,
                         history: seq<Change>, cap: nat, trail: seq<Change>)

  function Latest(history: seq<Change>, cap: nat): (h: seq<Change>) {
    if |history| > cap then history[|history| - cap..] else history
  }

  function Smaller(a: nat, b: nat): nat {
    if a < b then a else b
  }

  function Notify(s: State, newLevel: LogLevel, now: int, reason: Reason): State {
    var change := Change(s.min, newLevel, now, reason);
    s.(min := newLevel, history := Latest(s.history + [change], s.cap), trail := s.trail + [change])
  }

  ghost predicate Due(s: State, now: int) {
    s.active && now >= s.revert
  }

  function Expire(s: State, now: int): State {
    if s.active && now >= s.revert then Notify(s, s.original, now, Expired).(active := false) else s
  }

  datatype Op =
    | SetLevel(level: LogLevel)
    | SetDynamic(level: LogLevel, reason: string)
    | SetTemporary(level: LogLevel, seconds: int, reason: string)
    | Cancel
    | Log(level: LogLevel)
    | ClearHistory
    | SetMax(entries: nat)

  function Apply(s: State, op: Op, now: int): State {
    match op
    case SetLevel(level) => s.(min := level)
    case SetDynamic(level, reason) =>
      var t := Expire(s, now);
      if t.min != level then Notify(t, level, now, Given(reason)) else t
    case SetTemporary(level, seconds, reason) =>
      var entered := s.(original := if s.active then s.original else s.min,
                       revert := now + seconds * NANOS_PER_SECOND, active := true);
      Notify(entered, level, now, Temporary(reason, seconds))
    case Cancel => if s.active then Notify(s, s.original, now, Cancelled).(active := false) else s
    case Log(_) => Expire(s, now)
    case ClearHistory => s.(history := [])
    case SetMax(entries) => s.(cap := entries, history := Latest(s.history, entries))
  }

  /** The level test a log call makes. */
  predicate Accepts(s: State, level: LogLevel, now: int) {
    !level.Below(Expire(s, now).min)
  }

  class LevelControl {
    var min_level: LogLevel
    var temp_active: bool
    var temp_original: LogLevel
    var temp_revert: int
    var level_history: seq<Change>
    var max_history_entries: nat
    ghost var trail: seq<Change>

    ghost function View(): State
      reads this
    {
      State(min_level, temp_active, temp_original, temp_revert, level_history, max_history_entries, trail)
    }

    constructor ()
      ensures View() == Initial()
      ensures min_level == Trace && !temp_active && level_history == [] && max_history_entries == 100
    {
      min_level, temp_active, temp_original, temp_revert := Trace, false, Trace, 0;
      level_history, max_history_entries, trail := [], 100, [];
    }

    method SetLevel(level: LogLevel)
      modifies this
      ensures View() == Apply(old(View()), Op.SetLevel(level), 0)
    {
      min_level := level;
    }

    method SetLevelDynamic(level: LogLevel, reason: string, now: int)
      modifies this
      ensures View() == Apply(old(View()), SetDynamic(level, reason), now)
    {
      CheckTemporaryLevelExpiry(now);
      var old_level := min_level;
      min_level := level;
      if old_level != level {
        RecordLevelChange(old_level, level, now, Given(reason));
      }
    }

    method SetLevelTemporary(level: LogLevel, seconds: int, reason: string, now: int)
      modifies this
      ensures View() == Apply(old(View()), SetTemporary(level, seconds, reason), now)
    {
      if !temp_active {
        temp_original := min_level;
      }
      temp_revert := now + seconds * NANOS_PER_SECOND;
      temp_active := true;
      var old_level := min_level;
      min_level := level;
      RecordLevelChange(old_level, level, now, Temporary(reason, seconds));
    }

    method CancelTemporaryLevel(now: int)
      modifies this
      ensures View() == Apply(old(View()), Cancel, now)
    {
      if temp_active {
        var current, original := min_level, temp_original;
        min_level := original;
        temp_active := false;
        RecordLevelChange(current, original, now, Cancelled);
      }
    }

    method CheckTemporaryLevelExpiry(now: int)
      modifies this
      ensures View() == Expire(old(View()), now)
    {
      if temp_active {
        if now >= temp_revert {
          var current, original := min_level, temp_original;
          min_level := original;
          temp_active := false;
          RecordLevelChange(current, original, now, Expired);
        }
      }
    }

    /** The level test at the start of a log call. */
    method ShouldLog(level: LogLevel, now: int) returns (accepted: bool)
      modifies this
      ensures accepted == Accepts(old(View()), level, now)
      ensures View() == Apply(old(View()), Log(level), now)
    {
      CheckTemporaryLevelExpiry(now);
      accepted := !level.Below(min_level);
    }

    method RecordLevelChange(old_level: LogLevel, new_level: LogLevel, now: int, reason: Reason)
      modifies this`level_history, this`trail
      ensures trail == old(trail) + [Change(old_level, new_level, now, reason)]
      ensures level_history == Latest(old(level_history) + [Change(old_level, new_level, now, reason)], max_history_entries)
      ensures var all := old(level_history) + [Change(old_level, new_level, now, reason)];
              |level_history| == Smaller(|all|, max_history_entries) && level_history == all[|all| - |level_history|..]
    {
      var entry := Change(old_level, new_level, now, reason);
      level_history := level_history + [entry];
      trail := trail + [entry];
      DropOldest();
    }

    method DropOldest()
      modifies this`level_history
      ensures level_history == Latest(old(level_history), max_history_entries)
    {
      ghost var popped := 0;
      while |level_history| > max_history_entries
        invariant popped <= |old(level_history)| && level_history == old(level_history)[popped..]
        invariant popped > 0 ==> |level_history| >= max_history_entries
      {
        level_history := level_history[1..];
        popped := popped + 1;
      }
    }

    method GetLevelHistory(max_entries: nat) returns (result: seq<Change>)
      ensures |result| == if max_entries < |level_history| then max_entries else |level_history|
      ensures result == level_history[|level_history| - |result|..]
    {
      var count := if max_entries < |level_history| then max_entries else |level_history|;
      result := level_history[|level_history| - count..];
    }

    method ClearLevelHistory()
      modifies this
      ensures View() == Apply(old(View()), ClearHistory, 0)
      ensures level_history == [] && trail == old(trail) && min_level == old(min_level)
    {
      level_history := [];
    }

    method SetMaxHistoryEntries(max_entries: nat)
      modifies this
      ensures View() == Apply(old(View()), SetMax(max_entries), 0)
      ensures max_history_entries == max_entries && |level_history| == Smaller(old(|level_history|), max_entries)
      ensures level_history == old(level_history)[old(|level_history|) - |level_history|..]
    {
      max_history_entries := max_entries;
      DropOldest();
    }
  }

  function Initial(): State {
    State(Trace, false, Trace, 0, [], 100, [])
  }

  // ---------- A machine that reverts exactly on time ----------

  datatype Window = Window(original: LogLevel, revert: int)

  datatype Eager = Eager(min: LogLevel, window: Option<Window>)

  /** Where time has brought the eager machine by `now`. */
  function Tick(e: Eager, now: int): Eager {
    match e.window
    case Some(w) => if now >= w.revert then Eager(w.original, None) else e
    case None => e
  }

  function EagerApply(before: Eager, op: Op, now: int): Eager {
    var e := Tick(before, now);
    match op
    case SetLevel(level) => e.(min := level)
    case SetDynamic(level, _) => e.(min := level)
    case SetTemporary(level, seconds, _) =>
      var original := if e.window.Some? then e.window.value.original else e.min;
      Eager(level, Some(Window(original, now + seconds * NANOS_PER_SECOND)))
    case Cancel => if e.window.Some? then Eager(e.window.value.original, None) else e
    case _ => e
  }

  predicate EagerAccepts(e: Eager, level: LogLevel, now: int) {
    !level.Below(Tick(e, now).min)
  }

  function Seen(s: State): Eager {
    Eager(s.min, if s.active then Some(Window(s.original, s.revert)) else None)
  }

  /** From `now` on the two machines cannot be told apart. */
  ghost predicate Matches(s: State, e: Eager, now: int) {
    Tick(Seen(s), now) == Tick(e, now)
  }

  /** A plain level change does not fall between a due revert and its discovery,
      unless it asks for the level the revert restores. */
  ghost predicate Harmless(s: State, op: Op, now: int) {
    op.SetLevel? && Due(s, now) ==> op.level == s.original
  }

  lemma MatchesLater(s: State, e: Eager, now: int, later: int)
    requires Matches(s, e, now) && now <= later
    ensures Matches(s, e, later)
    ensures forall level :: Accepts(s, level, now) <==> EagerAccepts(e, level, now)
  {
  }

  lemma StepMatches(s: State, e: Eager, op: Op, now: int)
    requires Matches(s, e, now) && Harmless(s, op, now)
    ensures Matches(Apply(s, op, now), EagerApply(e, op, now), now)
  {
  }

  /** One step keeps all later level tests alike exactly when it is harmless. */
  lemma StepAgreesIffHarmless(s: State, e: Eager, op: Op, now: int)
    requires Matches(s, e, now)
    ensures (forall level :: Accepts(Apply(s, op, now), level, now) <==> EagerAccepts(EagerApply(e, op, now), level, now))
            <==> Harmless(s, op, now)
  {
    if Harmless(s, op, now) {
      StepMatches(s, e, op, now);
      MatchesLater(Apply(s, op, now), EagerApply(e, op, now), now, now);
    } else {
      var probe := if op.level.Below(s.original) then op.level else s.original;
      assert Accepts(Apply(s, op, now), probe, now) != EagerAccepts(EagerApply(e, op, now), probe, now);
    }
  }

  datatype Call = Call(op: Op, time: int)

  ghost predicate Ordered(start: int, run: seq<Call>)
    decreases |run|
  {
    run == [] || (start <= run[0].time && Ordered(run[0].time, run[1..]))
  }

  function Final(s: State, run: seq<Call>): State
    decreases |run|
  {
    if run == [] then s else Final(Apply(s, run[0].op, run[0].time), run[1..])
  }

  /** The answers the log calls of a run get. */
  function Decisions(s: State, run: seq<Call>): seq<bool>
    decreases |run|
  {
    if run == [] then []
    else
      (if run[0].op.Log? then [Accepts(s, run[0].op.level, run[0].time)] else [])
      + Decisions(Apply(s, run[0].op, run[0].time), run[1..])
  }

  function EagerDecisions(e: Eager, run: seq<Call>): seq<bool>
    decreases |run|
  {
    if run == [] then []
    else
      (if run[0].op.Log? then [EagerAccepts(e, run[0].op.level, run[0].time)] else [])
      + EagerDecisions(EagerApply(e, run[0].op, run[0].time), run[1..])
  }

  ghost predicate AllHarmless(s: State, run: seq<Call>)
    decreases |run|
  {
    run == [] || (Harmless(s, run[0].op, run[0].time) && AllHarmless(Apply(s, run[0].op, run[0].time), run[1..]))
  }

  /** Discovering expiry only at log and dynamic-level calls is as good as reverting on time:
      for any nesting, extension and cancellation every log call is decided alike. */
  lemma {:induction false} LazyRefinesEager(s: State, e: Eager, start: int, run: seq<Call>)
    requires Matches(s, e, start) && Ordered(start, run) && AllHarmless(s, run)
    ensures Decisions(s, run) == EagerDecisions(e, run)
    decreases |run|
  {
    if run == [] {
    } else {
      var call := run[0];
      MatchesLater(s, e, start, call.time);
      MatchesLater(s, e, call.time, call.time);
      StepMatches(s, e, call.op, call.time);
      LazyRefinesEager(Apply(s, call.op, call.time), EagerApply(e, call.op, call.time), call.time, run[1..]);
    }
  }

  lemma LazyRefinesEagerFromStart(start: int, run: seq<Call>)
    requires Ordered(start, run) && AllHarmless(Initial(), run)
    ensures Decisions(Initial(), run) == EagerDecisions(Eager(Trace, None), run)
  {
    LazyRefinesEager(Initial(), Eager(Trace, None), start, run);
  }

  // ---------- Windows ----------

  /** The window is open after every call of the run. */
  ghost predicate StaysOpen(s: State, run: seq<Call>)
    decreases |run|
  {
    s.active && (run == [] || StaysOpen(Apply(s, run[0].op, run[0].time), run[1..]))
  }

  lemma {:induction false} OriginalKept(s: State, run: seq<Call>)
    requires StaysOpen(s, run)
    ensures Final(s, run).active && Final(s, run).original == s.original
    decreases |run|
  {
    if run == [] {
    } else {
      OriginalKept(Apply(s, run[0].op, run[0].time), run[1..]);
    }
  }

  /** Whatever happens while a temporary window is open, the call that closes it first
      restores the level in force when it opened, and says so. */
  lemma ClosingRestores(s: State, opening: Call, run: seq<Call>, closing: Call)
    requires !s.active && opening.op.SetTemporary?
    requires StaysOpen(Apply(s, opening.op, opening.time), run)
    requires var t := Final(Apply(s, opening.op, opening.time), run);
             !Apply(t, closing.op, closing.time).active
    ensures var t := Final(Apply(s, opening.op, opening.time), run);
            var u := Apply(t, closing.op, closing.time);
            && |u.trail| > |t.trail|
            && u.trail[|t.trail|].oldLevel == t.min && u.trail[|t.trail|].newLevel == s.min
            && u.min == if closing.op.SetDynamic? then closing.op.level else s.min
  {
    OriginalKept(Apply(s, opening.op, opening.time), run);
  }

  // ---------- History ----------

  /** Each change starts where the one before it ended. */
  ghost predicate Chained(start: LogLevel, trail: seq<Change>, last: LogLevel)
    decreases |trail|
  {
    if trail == [] then start == last
    else trail[0].oldLevel == start && Chained(trail[0].newLevel, trail[1..], last)
  }

  lemma {:induction false} ChainGrows(start: LogLevel, trail: seq<Change>, last: LogLevel, change: Change)
    ensures Chained(start, trail, last) && change.oldLevel == last
            ==> Chained(start, trail + [change], change.newLevel)
    decreases |trail|
  {
    if trail != [] {
      assert (trail + [change])[1..] == trail[1..] + [change];
      ChainGrows(trail[0].newLevel, trail[1..], last, change);
    } else {
      assert (trail + [change])[1..] == [];
    }
  }

  lemma {:induction false} ChainEndUnique(start: LogLevel, trail: seq<Change>, last: LogLevel, other: LogLevel)
    requires Chained(start, trail, last) && Chained(start, trail, other)
    ensures last == other
    decreases |trail|
  {
    if trail == [] {
    } else {
      ChainEndUnique(trail[0].newLevel, trail[1..], last, other);
    }
  }

  /** A call keeps the trail an unbroken account of the level exactly when it is not a plain
      change to a different level. */
  lemma TrailKeptIff(start: LogLevel, s: State, op: Op, now: int)
    requires Chained(start, s.trail, s.min)
    ensures Chained(start, Apply(s, op, now).trail, Apply(s, op, now).min) <==> !(op.SetLevel? && op.level != s.min)
  {
    var t := Expire(s, now);
    ChainGrows(start, s.trail, s.min, Change(s.min, s.original, now, Expired));
    match op
    case SetLevel(level) =>
      if level != s.min && Chained(start, s.trail, level) {
        ChainEndUnique(start, s.trail, level, s.min);
      }
    case SetDynamic(level, reason) =>
      ChainGrows(start, t.trail, t.min, Change(t.min, level, now, Given(reason)));
    case SetTemporary(level, seconds, reason) =>
      ChainGrows(start, s.trail, s.min, Change(s.min, level, now, Temporary(reason, seconds)));
    case Cancel =>
      ChainGrows(start, s.trail, s.min, Change(s.min, s.original, now, Cancelled));
    case _ =>
  }

  ghost predicate IsSuffix(h: seq<Change>, trail: seq<Change>) {
    |h| <= |trail| && h == trail[|trail| - |h|..]
  }

  ghost predicate HistoryFaithful(s: State) {
    IsSuffix(s.history, s.trail) && |s.history| <= s.cap
  }

  lemma LatestIsSuffix(history: seq<Change>, trail: seq<Change>, cap: nat)
    requires IsSuffix(history, trail)
    ensures IsSuffix(Latest(history, cap), trail) && |Latest(history, cap)| <= cap
  {
    var h := Latest(history, cap);
    assert h == trail[|trail| - |history|..][|history| - |h|..];
  }

  lemma NotifyFaithful(s: State, level: LogLevel, now: int, reason: Reason)
    requires HistoryFaithful(s)
    ensures HistoryFaithful(Notify(s, level, now, reason))
  {
    var change := Change(s.min, level, now, reason);
    assert s.history + [change] == (s.trail + [change])[|s.trail| - |s.history|..];
    LatestIsSuffix(s.history + [change], s.trail + [change], s.cap);
  }

  lemma StepFaithful(s: State, op: Op, now: int)
    requires HistoryFaithful(s)
    ensures HistoryFaithful(Apply(s, op, now))
  {
    if Due(s, now) {
      NotifyFaithful(s, s.original, now, Expired);
    }
    match op
    case SetDynamic(level, reason) =>
      NotifyFaithful(Expire(s, now), level, now, Given(reason));
    case SetTemporary(level, seconds, reason) =>
      var entered := s.(original := if s.active then s.original else s.min,
                       revert := now + seconds * NANOS_PER_SECOND, active := true);
      NotifyFaithful(entered, level, now, Temporary(reason, seconds));
    case Cancel =>
      NotifyFaithful(s, s.original, now, Cancelled);
    case SetMax(entries) =>
      LatestIsSuffix(s.history, s.trail, entries);
    case _ =>
  }

  /** A notification is stored last, and pushes out no more than the bound demands. */
  lemma NotifyStores(s: State, level: LogLevel, now: int, reason: Reason)
    ensures var t := Notify(s, level, now, reason);
            && |t.history| == Smaller(|s.history| + 1, s.cap)
            && t.history == (s.history + [Change(s.min, level, now, reason)])[|s.history| + 1 - |t.history|..]
            && (s.cap > 0 ==> t.history[|t.history| - 1] == Change(s.min, level, now, reason))
  {
  }

  /** A new bound keeps the newest entries, as many as it allows. */
  lemma SetMaxKeeps(s: State, entries: nat, now: int)
    ensures var t := Apply(s, SetMax(entries), now);
            |t.history| == Smaller(|s.history|, entries) && t.history == s.history[|s.history| - |t.history|..]
  {
  }

  /** The run leaves the bound alone and discards nothing on purpose. */
  predicate KeepsHistory(run: seq<Call>) {
    forall i :: 0 <= i < |run| ==> !run[i].op.ClearHistory? && !run[i].op.SetMax?
  }

  /** Nothing is missing from the history but what the bound pushed out. */
  ghost predicate HistoryFull(s: State) {
    |s.history| == Smaller(|s.trail|, s.cap)
  }

  lemma StepFull(s: State, op: Op, now: int)
    requires HistoryFull(s) && !op.ClearHistory? && !op.SetMax?
    ensures HistoryFull(Apply(s, op, now)) && Apply(s, op, now).cap == s.cap
  {
    NotifyFull(s, s.original, now, Expired);
    match op
    case SetDynamic(level, reason) => NotifyFull(Expire(s, now), level, now, Given(reason));
    case SetTemporary(level, seconds, reason) =>
      NotifyFull(s.(original := if s.active then s.original else s.min,
                    revert := now + seconds * NANOS_PER_SECOND, active := true),
                 level, now, Temporary(reason, seconds));
    case Cancel => NotifyFull(s, s.original, now, Cancelled);
    case _ =>
  }

  lemma NotifyFull(s: State, level: LogLevel, now: int, reason: Reason)
    requires HistoryFull(s)
    ensures HistoryFull(Notify(s, level, now, reason)) && Notify(s, level, now, reason).cap == s.cap
  {
    NotifyStores(s, level, now, reason);
  }

  /** Over every run without clearing or resizing, the history holds the newest notifications, as many
      as the bound allows; from a new logger that bound is 100. */
  lemma {:induction false} HistoryIsFull(s: State, run: seq<Call>)
    requires HistoryFull(s) && KeepsHistory(run)
    ensures HistoryFull(Final(s, run)) && Final(s, run).cap == s.cap
    decreases |run|
  {
    if run == [] {
    } else {
      StepFull(s, run[0].op, run[0].time);
      HistoryIsFull(Apply(s, run[0].op, run[0].time), run[1..]);
    }
  }

  lemma NewLoggerHistory(run: seq<Call>)
    requires KeepsHistory(run)
    ensures var s := Final(Initial(), run);
            |s.history| == Smaller(|s.trail|, 100) && s.history == s.trail[|s.trail| - |s.history|..]
  {
    HistoryIsFull(Initial(), run);
    RunFaithful(Initial(), run);
  }

  /** What each call records: a change it makes, with its own time and reason, after the revert it finds due. */
  lemma WhatIsRecorded(s: State, op: Op, now: int)
    ensures var t := Apply(s, op, now);
            var reverted := if (op.SetDynamic? || op.Log?) && s.active && s.revert <= now
                            then [Change(s.min, s.original, now, Expired)] else [];
            var level := if reverted == [] then s.min else s.original;
            t.trail == s.trail + reverted +
              match op
              case SetDynamic(l, reason) => if l == level then [] else [Change(level, l, now, Given(reason))]
              case SetTemporary(l, seconds, reason) => [Change(s.min, l, now, Temporary(reason, seconds))]
              case Cancel => if s.active then [Change(s.min, s.original, now, Cancelled)] else []
              case _ => []
  {
    assert s.trail + [] == s.trail;
  }

  /** Plain level changes in the run never change the level. */
  ghost predicate NoSilentChange(s: State, run: seq<Call>)
    decreases |run|
  {
    run == [] ||
    (!(run[0].op.SetLevel? && run[0].op.level != s.min) && NoSilentChange(Apply(s, run[0].op, run[0].time), run[1..]))
  }

  lemma {:induction false} RunFaithful(s: State, run: seq<Call>)
    requires HistoryFaithful(s)
    ensures HistoryFaithful(Final(s, run))
    decreases |run|
  {
    if run == [] {
    } else {
      StepFaithful(s, run[0].op, run[0].time);
      RunFaithful(Apply(s, run[0].op, run[0].time), run[1..]);
    }
  }

  lemma {:induction false} RunChained(start: LogLevel, s: State, run: seq<Call>)
    requires Chained(start, s.trail, s.min) && NoSilentChange(s, run)
    ensures Chained(start, Final(s, run).trail, Final(s, run).min)
    decreases |run|
  {
    if run == [] {
    } else {
      TrailKeptIff(start, s, run[0].op, run[0].time);
      RunChained(start, Apply(s, run[0].op, run[0].time), run[1..]);
    }
  }

  lemma {:induction false} ChainedSuffix(start: LogLevel, trail: seq<Change>, last: LogLevel, k: nat)
    requires Chained(start, trail, last) && k <= |trail|
    ensures k < |trail| ==> Chained(trail[k].oldLevel, trail[k..], last)
    decreases |trail|
  {
    if k > 0 && k < |trail| {
      ChainedSuffix(trail[0].newLevel, trail[1..], last, k - 1);
      assert trail[1..][k - 1..] == trail[k..];
    } else if k == 0 {
      assert trail[0..] == trail;
    }
  }

  /** In any run the stored history is the tail of all notifications within its bound; if plain
      changes never change the level, its entries chain up to the current level. */
  lemma HistoryIsAuditTrail(run: seq<Call>)
    ensures var s := Final(Initial(), run);
            && HistoryFaithful(s)
            && (NoSilentChange(Initial(), run) && s.history != [] ==>
                Chained(s.history[0].oldLevel, s.history, s.min))
  {
    var s := Final(Initial(), run);
    RunFaithful(Initial(), run);
    if NoSilentChange(Initial(), run) && s.history != [] {
      RunChained(Trace, Initial(), run);
      ChainedSuffix(Trace, s.trail, s.min, |s.trail| - |s.history|);
    }
  }
}
