// Level changes by many threads: a change of the level and its record are two steps, and the first
// of them is not always under the mutex; cancelling and expiry load and store the level in two more.

module LevelRaces {
  import opened LogLevels
  import L = LevelControl

  /** A change that took place and is not recorded yet. `ticket` numbers the changes; `from` is the
      number of the level it believes to have replaced. */
  datatype Pending = Pending(ticket: nat, from: nat)

  datatype Entry = Entry(ticket: nat, from: nat, time: int, reason: L.Reason)

  /** `levels` holds every level in force so far, the last one being the present one; change number
      `k` put `levels[k + 1]` in the place of `levels[k]`. `pending` holds the calls between their
      change and their record, `holder` the one that keeps the mutex meanwhile, `loaded` the number
      of the level it loaded if it is reverting and has not stored yet. */
  datatype State = State(levels: seq<LogLevel>, pending: map<nat, Pending>, holder: Option<nat>,
                         loaded: Option<nat>, records: seq<Entry>)

  datatype Action =
    | Exchange(t: nat, level: LogLevel)
    | ExchangeLocked(t: nat, level: LogLevel)
    | LoadLocked(t: nat)
    | StoreLocked(t: nat, level: LogLevel)
    | Record(t: nat, time: int, reason: L.Reason)

  function Initial(start: LogLevel): State {
    State([start], map[], None, None, [])
  }

  function Present(s: State): nat
    requires s.levels != []
  {
    |s.levels| - 1
  }

  function Changed(s: State, t: nat, level: LogLevel, from: nat): State
    requires s.levels != []
  {
    s.(levels := s.levels + [level], pending := s.pending[t := Pending(Present(s), from)])
  }

  predicate MayRecord(s: State, t: nat) {
    t in s.pending && (s.holder == None || s.holder == Some(t))
  }

  function Recorded(s: State, t: nat, time: int, reason: L.Reason): State
    requires t in s.pending
  {
    s.(pending := s.pending - {t}, holder := None,
       records := s.records + [Entry(s.pending[t].ticket, s.pending[t].from, time, reason)])
  }

  predicate ExchangesNow(s: State, a: Action)
    requires s.levels != []
  {
    a.Exchange? && a.t !in s.pending && s.holder != Some(a.t) && s.levels[Present(s)] != a.level
  }

  /** A dynamic change exchanges without the mutex and records only a real change; a temporary one
      holds the mutex from its exchange to its record, cancelling and expiry from their load to it.
      An action that is not enabled changes nothing. */
  function Step(s: State, a: Action): State
    requires s.levels != []
  {
    match a
    case Exchange(t, level) => if ExchangesNow(s, a) then Changed(s, t, level, Present(s)) else s
    case ExchangeLocked(t, level) =>
      if t in s.pending || s.holder.Some? then s else Changed(s, t, level, Present(s)).(holder := Some(t))
    case LoadLocked(t) =>
      if t in s.pending || s.holder.Some? then s else s.(holder := Some(t), loaded := Some(Present(s)))
    case StoreLocked(t, level) =>
      if s.holder == Some(t) && s.loaded.Some? then Changed(s, t, level, s.loaded.value).(loaded := None) else s
    case Record(t, time, reason) =>
      if MayRecord(s, t) then Recorded(s, t, time, reason) else s
  }

  /** All numbers in a state are numbers of levels. */
  ghost predicate Bounded(s: State) {
    && s.levels != []
    && (forall t :: t in s.pending ==> s.pending[t].from <= s.pending[t].ticket < Present(s))
    && (forall k :: 0 <= k < |s.records| ==> s.records[k].from <= s.records[k].ticket < Present(s))
    && (s.loaded.Some? ==> s.loaded.value <= Present(s))
  }

  lemma StepBounded(s: State, a: Action)
    requires Bounded(s)
    ensures Bounded(Step(s, a))
  {
  }

  function Run(start: LogLevel, actions: seq<Action>): (s: State)
    ensures Bounded(s)
    decreases |actions|
  {
    if actions == [] then Initial(start)
    else
      var s := Run(start, actions[..|actions| - 1]);
      StepBounded(s, actions[|actions| - 1]);
      Step(s, actions[|actions| - 1])
  }

  lemma RunLast(start: LogLevel, front: seq<Action>, last: Action)
    ensures Run(start, front + [last]) == Step(Run(start, front), last)
  {
    assert (front + [last])[..|front|] == front;
  }

  // ---------- Unbroken trails ----------

  function ChangeOf(levels: seq<LogLevel>, e: Entry): L.Change
    requires e.from < |levels| && e.ticket + 1 < |levels|
  {
    L.Change(levels[e.from], levels[e.ticket + 1], e.time, e.reason)
  }

  /** The changes recorded: each tells the level it believes to have replaced and the new one. */
  ghost function Trail(s: State): seq<L.Change>
    requires Bounded(s)
  {
    seq(|s.records|, k requires 0 <= k < |s.records| => ChangeOf(s.levels, s.records[k]))
  }

  /** The level the last record names. */
  function Last(start: LogLevel, trail: seq<L.Change>): LogLevel {
    if trail == [] then start else trail[|trail| - 1].newLevel
  }

  ghost predicate Unbroken(start: LogLevel, trail: seq<L.Change>) {
    L.Chained(start, trail, Last(start, trail))
  }

  lemma {:induction false} ChainSplit(start: LogLevel, trail: seq<L.Change>, c: L.Change, last: LogLevel)
    ensures L.Chained(start, trail + [c], last) <==> L.Chained(start, trail, c.oldLevel) && c.newLevel == last
    decreases |trail|
  {
    if trail == [] {
      assert (trail + [c])[1..] == [];
    } else {
      assert (trail + [c])[1..] == trail[1..] + [c];
      ChainSplit(trail[0].newLevel, trail[1..], c, last);
    }
  }

  lemma {:induction false} ChainEnd(start: LogLevel, trail: seq<L.Change>, last: LogLevel)
    requires L.Chained(start, trail, last)
    ensures last == Last(start, trail)
    decreases |trail|
  {
    if trail == [] {
    } else {
      ChainEnd(trail[0].newLevel, trail[1..], last);
    }
  }

  /** One more record keeps the trail unbroken exactly if it was, and the record starts where it ended. */
  lemma UnbrokenStep(start: LogLevel, trail: seq<L.Change>, c: L.Change)
    ensures Unbroken(start, trail + [c]) <==> Unbroken(start, trail) && c.oldLevel == Last(start, trail)
  {
    ChainSplit(start, trail, c, c.newLevel);
    if L.Chained(start, trail, c.oldLevel) {
      ChainEnd(start, trail, c.oldLevel);
    }
  }

  lemma TrailAfterRecord(s: State, t: nat, time: int, reason: L.Reason)
    requires Bounded(s) && MayRecord(s, t)
    ensures Bounded(Step(s, Record(t, time, reason)))
    ensures Trail(Step(s, Record(t, time, reason)))
         == Trail(s) + [ChangeOf(s.levels, Entry(s.pending[t].ticket, s.pending[t].from, time, reason))]
  {
  }

  // ---------- Records in the order of the changes ----------

  /** The change starts from the level it replaced, and is a real one. */
  ghost predicate Fresh(s: State, t: nat)
    requires Bounded(s) && t in s.pending
  {
    var k := s.pending[t].ticket;
    s.pending[t].from == k && s.levels[k] != s.levels[k + 1]
  }

  /** Changes outside the mutex are fresh. */
  ghost predicate Honest(s: State)
    requires Bounded(s)
  {
    forall t :: t in s.pending && s.holder != Some(t) ==> Fresh(s, t)
  }

  /** No two changes have the same number, and each is pending or recorded. */
  ghost predicate Distinct(s: State) {
    && |s.levels| == |s.records| + |s.pending| + 1
    && (forall t, k :: t in s.pending && 0 <= k < |s.records| ==> s.pending[t].ticket != s.records[k].ticket)
    && (forall t, u :: t in s.pending && u in s.pending && s.pending[t].ticket == s.pending[u].ticket ==> t == u)
    && (s.loaded.Some? ==> s.holder.Some? && s.holder.value !in s.pending)
  }

  lemma AddedKey<K, V>(m: map<K, V>, k: K, v: V)
    requires k !in m
    ensures |m[k := v]| == |m| + 1
  {
    assert m[k := v].Keys == m.Keys + {k};
  }

  lemma RemovedKey<K, V>(m: map<K, V>, k: K)
    requires k in m
    ensures |m - {k}| == |m| - 1
  {
    assert (m - {k}).Keys == m.Keys - {k};
  }

  lemma ChangedDistinct(s: State, t: nat, level: LogLevel, from: nat)
    requires Bounded(s) && Distinct(s) && t !in s.pending
    ensures var u := Changed(s, t, level, from); Distinct(u.(holder := None, loaded := None))
  {
    AddedKey(s.pending, t, Pending(Present(s), from));
  }

  lemma RecordedDistinct(s: State, t: nat, time: int, reason: L.Reason)
    requires Bounded(s) && Distinct(s) && MayRecord(s, t)
    ensures Distinct(Recorded(s, t, time, reason))
  {
    RemovedKey(s.pending, t);
  }

  lemma StepDistinct(s: State, a: Action)
    requires Bounded(s) && Distinct(s)
    ensures Distinct(Step(s, a))
  {
    match a
    case Exchange(t, level) =>
      if ExchangesNow(s, a) {
        ChangedDistinct(s, t, level, Present(s));
      }
    case ExchangeLocked(t, level) =>
      if t !in s.pending {
        ChangedDistinct(s, t, level, Present(s));
      }
    case LoadLocked(t) =>
    case StoreLocked(t, level) =>
      if s.holder == Some(t) && s.loaded.Some? {
        ChangedDistinct(s, t, level, s.loaded.value);
      }
    case Record(t, time, reason) =>
      if MayRecord(s, t) {
        RecordedDistinct(s, t, time, reason);
      }
  }

  lemma FreshStays(s: State, u: State, x: nat)
    requires Bounded(s) && Bounded(u) && x in s.pending && x in u.pending && u.pending[x] == s.pending[x]
    requires u.levels == s.levels || (|u.levels| == |s.levels| + 1 && u.levels[..|s.levels|] == s.levels)
    requires Fresh(s, x)
    ensures Fresh(u, x)
  {
    var k := s.pending[x].ticket;
    assert u.levels != s.levels ==>
        u.levels[k] == u.levels[..|s.levels|][k] && u.levels[k + 1] == u.levels[..|s.levels|][k + 1];
  }

  lemma LevelsGrow(s: State, a: Action)
    requires Bounded(s)
    ensures var u := Step(s, a);
            u.levels == s.levels || (|u.levels| == |s.levels| + 1 && u.levels[..|s.levels|] == s.levels)
  {
  }

  lemma StepHonest(s: State, a: Action)
    requires Bounded(s) && Distinct(s) && Honest(s)
    ensures Bounded(Step(s, a)) && Honest(Step(s, a))
  {
    var u := Step(s, a);
    StepBounded(s, a);
    LevelsGrow(s, a);
    forall x | x in u.pending && u.holder != Some(x)
      ensures Fresh(u, x)
    {
      if x in s.pending && u.pending[x] == s.pending[x] {
        assert s.holder != Some(x);
        FreshStays(s, u, x);
      }
    }
  }

  ghost predicate Inv(start: LogLevel, s: State)
    requires Bounded(s)
  {
    Distinct(s) && Honest(s) && s.levels[0] == start
  }

  lemma StepInv(start: LogLevel, s: State, a: Action)
    requires Bounded(s) && Inv(start, s)
    ensures Bounded(Step(s, a)) && Inv(start, Step(s, a))
  {
    StepDistinct(s, a);
    StepHonest(s, a);
    LevelsGrow(s, a);
    assert Step(s, a).levels[..|s.levels|][0] == start;
  }

  lemma {:induction false} RunInv(start: LogLevel, actions: seq<Action>)
    ensures Inv(start, Run(start, actions))
    decreases |actions|
  {
    if actions == [] {
    } else {
      RunInv(start, actions[..|actions| - 1]);
      StepInv(start, Run(start, actions[..|actions| - 1]), actions[|actions| - 1]);
    }
  }

  /** The records so far are the changes so far, in order, none of them stale. */
  ghost predicate Orderly(records: seq<Entry>) {
    forall k :: 0 <= k < |records| ==> records[k].ticket == k && records[k].from == k
  }

  lemma {:induction false} OrderlyChained(s: State, n: nat)
    requires Bounded(s) && Orderly(s.records) && n <= |s.records|
    ensures n < |s.levels| && L.Chained(s.levels[0], Trail(s)[..n], s.levels[n])
    decreases n
  {
    if n == 0 {
    } else {
      OrderlyChained(s, n - 1);
      assert s.records[n - 1].ticket == n - 1;
      assert Trail(s)[..n] == Trail(s)[..n - 1] + [Trail(s)[n - 1]];
      ChainSplit(s.levels[0], Trail(s)[..n - 1], Trail(s)[n - 1], s.levels[n]);
    }
  }

  /** If the records follow the changes in order, the trail is an unbroken account, and with no call
      between its two steps it ends at the level in force. */
  lemma OrderlyRecordsChain(start: LogLevel, actions: seq<Action>)
    requires Orderly(Run(start, actions).records)
    ensures var s := Run(start, actions);
            && |s.records| < |s.levels| && L.Chained(start, Trail(s), s.levels[|s.records|])
            && (s.pending == map[] ==> L.Chained(start, Trail(s), s.levels[|s.levels| - 1]))
  {
    RunInv(start, actions);
    var s := Run(start, actions);
    OrderlyChained(s, |s.records|);
    assert Trail(s)[..|s.records|] == Trail(s);
  }

  /** After orderly records one more keeps the trail unbroken exactly if it starts at the level they end with. */
  lemma NextKeepsIff(s: State, t: nat, time: int, reason: L.Reason)
    requires Bounded(s) && Orderly(s.records) && MayRecord(s, t)
    ensures |s.records| < |s.levels| && Bounded(Step(s, Record(t, time, reason)))
    ensures Unbroken(s.levels[0], Trail(Step(s, Record(t, time, reason))))
            <==> s.levels[s.pending[t].from] == s.levels[|s.records|]
  {
    var n := |s.records|;
    OrderlyChained(s, n);
    assert Trail(s)[..n] == Trail(s);
    ChainEnd(s.levels[0], Trail(s), s.levels[n]);
    TrailAfterRecord(s, t, time, reason);
    UnbrokenStep(s.levels[0], Trail(s), ChangeOf(s.levels, Entry(s.pending[t].ticket, s.pending[t].from, time, reason)));
  }

  // ---------- Whatever the levels ----------

  /** Other levels the same changes could have gone through. */
  ghost predicate Alternative(s: State, levels: seq<LogLevel>) {
    |levels| == |s.levels| && forall k :: 0 < k < |levels| ==> levels[k - 1] != levels[k]
  }

  /** The next record of `t` keeps the trail unbroken whatever the levels were. */
  ghost predicate KeepsWhatever(s: State, t: nat, time: int, reason: L.Reason) {
    forall levels :: Alternative(s, levels) ==>
      KeepsWith(s.(levels := levels), t, time, reason)
  }

  ghost predicate KeepsWith(s: State, t: nat, time: int, reason: L.Reason) {
    s.levels != [] && Bounded(Step(s, Record(t, time, reason)))
    && Unbroken(s.levels[0], Trail(Step(s, Record(t, time, reason))))
  }

  /** Levels of which number `n` differs from all others. */
  function Standout(count: nat, n: nat): (levels: seq<LogLevel>)
    ensures |levels| == count
    ensures forall k :: 0 <= k < count ==>
              levels[k] == if k == n then Critical else if k % 2 == 0 then Debug else Info
  {
    seq(count, k => if k == n then Critical else if k % 2 == 0 then Debug else Info)
  }

  lemma StandoutIsAlternative(s: State, n: nat)
    ensures Alternative(s, Standout(|s.levels|, n))
  {
  }

  /** In a reachable state with orderly records, the next record of `t` keeps the trail unbroken
      whatever the levels were if and only if `t` believes to have replaced the level that the records
      end with. For any call but a revert that means: if and only if its change is the oldest one not
      recorded yet. */
  lemma NextRecordKeepsWhateverIff(start: LogLevel, actions: seq<Action>, t: nat, time: int, reason: L.Reason)
    requires Orderly(Run(start, actions).records) && MayRecord(Run(start, actions), t)
    ensures var s := Run(start, actions);
            && (KeepsWhatever(s, t, time, reason) <==> s.pending[t].from == |s.records|)
            && (s.holder != Some(t) ==> (KeepsWhatever(s, t, time, reason) <==> s.pending[t].ticket == |s.records|))
            && (forall u :: u in s.pending ==> |s.records| <= s.pending[u].ticket)
  {
    RunInv(start, actions);
    var s := Run(start, actions);
    var n := |s.records|;
    forall levels | Alternative(s, levels)
      ensures KeepsWith(s.(levels := levels), t, time, reason) <==> levels[s.pending[t].from] == levels[n]
    {
      NextKeepsIff(s.(levels := levels), t, time, reason);
    }
    OrderlyChained(s, n);
    StandoutIsAlternative(s, n);
    forall u | u in s.pending
      ensures n <= s.pending[u].ticket
    {
      PendingIsLater(s, u);
    }
  }

  lemma PendingIsLater(s: State, u: nat)
    requires Distinct(s) && Orderly(s.records) && u in s.pending
    ensures |s.records| <= s.pending[u].ticket
  {
    OrderlyHas(s.records, s.pending[u].ticket);
  }

  lemma OrderlyHas(records: seq<Entry>, x: nat)
    ensures Orderly(records) && x < |records| ==> exists k :: 0 <= k < |records| && records[k].ticket == x
  {
    if Orderly(records) && x < |records| {
      assert records[x].ticket == x;
    }
  }

  /** After records in order, one more keeps the trail unbroken exactly if it starts at the level
      recorded last: always for the oldest change, never for the one after a pending dynamic one. */
  lemma NextRecordKeepsIff(start: LogLevel, actions: seq<Action>, t: nat, time: int, reason: L.Reason)
    requires Orderly(Run(start, actions).records) && MayRecord(Run(start, actions), t)
    ensures var s := Run(start, actions);
            var n := |s.records|;
            var u := Step(s, Record(t, time, reason));
            && n < |s.levels| && Bounded(u)
            && (Unbroken(start, Trail(u)) <==> s.levels[s.pending[t].from] == s.levels[n])
            && (s.pending[t].from == n ==> Unbroken(start, Trail(u)))
            && (s.pending[t].from == n + 1 && (exists x :: x in s.pending && x != t && s.pending[x].ticket == n) ==>
                !Unbroken(start, Trail(u)))
  {
    RunInv(start, actions);
    NextKeepsIff(Run(start, actions), t, time, reason);
    OldestIsReal(start, Run(start, actions), t);
  }

  /** A change that another caller has pending, other than a revert, did change the level. */
  lemma OldestIsReal(start: LogLevel, s: State, t: nat)
    requires Bounded(s) && Inv(start, s) && MayRecord(s, t)
    ensures forall x :: x in s.pending && x != t ==>
              s.levels[s.pending[x].ticket] != s.levels[s.pending[x].ticket + 1]
  {
    forall x | x in s.pending && x != t
      ensures s.levels[s.pending[x].ticket] != s.levels[s.pending[x].ticket + 1]
    {
      assert Fresh(s, x);
    }
  }

  // ---------- Two changes in the opposite order ----------

  lemma TwoEntries(start: LogLevel, s: State)
    requires Bounded(s) && |s.records| == 2
    ensures Unbroken(start, Trail(s))
            <==> s.levels[s.records[0].from] == start
                 && s.levels[s.records[1].from] == s.levels[s.records[0].ticket + 1]
  {
    var c, d := ChangeOf(s.levels, s.records[0]), ChangeOf(s.levels, s.records[1]);
    assert Trail(s) == [] + [c] + [d];
    UnbrokenStep(start, [], c);
    UnbrokenStep(start, [c], d);
    assert [] + [c] == [c];
  }

  /** The two changes, and then their records, of which the order is free. */
  lemma TwoExchanges(start: LogLevel, a: LogLevel, b: LogLevel)
    requires a != start && b != a
    ensures Run(start, [] + [Exchange(1, a)] + [Exchange(2, b)])
         == State([start, a, b], map[1 := Pending(0, 0), 2 := Pending(1, 1)], None, None, [])
  {
    OneExchange(start, a);
    RunLast(start, [] + [Exchange(1, a)], Exchange(2, b));
  }

  lemma OneExchange(start: LogLevel, a: LogLevel)
    requires a != start
    ensures Run(start, [] + [Exchange(1, a)]) == State([start, a], map[1 := Pending(0, 0)], None, None, [])
  {
    RunLast(start, [], Exchange(1, a));
  }

  lemma TwoRecords(start: LogLevel, front: seq<Action>, t: nat, u: nat, now: int, r: L.Reason)
    requires var s := Run(start, front); s.holder != Some(u) && MayRecord(s, t) && u in s.pending && t != u && s.records == []
    ensures var s, v := Run(start, front), Run(start, front + [Record(t, now, r)] + [Record(u, now, r)]);
            v.levels == s.levels
            && v.records == [Entry(s.pending[t].ticket, s.pending[t].from, now, r),
                             Entry(s.pending[u].ticket, s.pending[u].from, now, r)]
  {
    RunLast(start, front, Record(t, now, r));
    RunLast(start, front + [Record(t, now, r)], Record(u, now, r));
  }

  /** Two overlapping dynamic changes that record in the opposite order always break the trail. */
  lemma OppositeOrderBreaks(start: LogLevel, a: LogLevel, b: LogLevel, now: int, r: L.Reason)
    requires a != start && b != a
    ensures !Unbroken(start, Trail(Run(start, [Exchange(1, a), Exchange(2, b), Record(2, now, r), Record(1, now, r)])))
  {
    TwoExchanges(start, a, b);
    TwoRecords(start, [] + [Exchange(1, a)] + [Exchange(2, b)], 2, 1, now, r);
    assert [] + [Exchange(1, a)] + [Exchange(2, b)] + [Record(2, now, r)] + [Record(1, now, r)]
        == [Exchange(1, a), Exchange(2, b), Record(2, now, r), Record(1, now, r)];
    TwoEntries(start, Run(start, [Exchange(1, a), Exchange(2, b), Record(2, now, r), Record(1, now, r)]));
  }

  // ---------- Reverts that overtake an exchange ----------

  /** How many of the actions exchange the level, from `s` on. */
  ghost function ExchangesFrom(s: State, actions: seq<Action>): nat
    requires Bounded(s)
    decreases |actions|
  {
    if actions == [] then 0
    else
      var front, last := actions[..|actions| - 1], actions[|actions| - 1];
      ExchangesFrom(s, front) + if ExchangesNow(RunFrom(s, front), last) then 1 else 0
  }

  function RunFrom(s: State, actions: seq<Action>): (u: State)
    requires Bounded(s)
    ensures Bounded(u)
    decreases |actions|
  {
    if actions == [] then s
    else
      var u := RunFrom(s, actions[..|actions| - 1]);
      StepBounded(u, actions[|actions| - 1]);
      Step(u, actions[|actions| - 1])
  }

  /** While a revert of `t` stands between load and store, only exchanges outside the mutex happen. */
  lemma {:induction false} OnlyExchangesMeanwhile(s: State, t: nat, mid: seq<Action>)
    requires Bounded(s) && Distinct(s) && s.holder == Some(t) && s.loaded.Some?
    requires forall i :: 0 <= i < |mid| ==> !(mid[i].StoreLocked? && mid[i].t == t)
    ensures var u := RunFrom(s, mid);
            && Distinct(u) && u.holder == s.holder && u.loaded == s.loaded && u.records == s.records
            && |u.levels| == |s.levels| + ExchangesFrom(s, mid)
    decreases |mid|
  {
    if mid == [] {
    } else {
      var front, last := mid[..|mid| - 1], mid[|mid| - 1];
      OnlyExchangesMeanwhile(s, t, front);
      MeanwhileStep(RunFrom(s, front), t, last);
    }
  }

  lemma MeanwhileStep(s: State, t: nat, a: Action)
    requires Bounded(s) && Distinct(s) && s.holder == Some(t) && s.loaded.Some? && !(a.StoreLocked? && a.t == t)
    ensures var u := Step(s, a);
            && Distinct(u) && u.holder == s.holder && u.loaded == s.loaded && u.records == s.records
            && |u.levels| == |s.levels| + if ExchangesNow(s, a) then 1 else 0
  {
    StepDistinct(s, a);
  }

  /** A revert that loads in `s`, and stores after `mid`, believes to have replaced the level it did
      replace if and only if no dynamic change exchanged the level in between. Otherwise the level
      given by that change is gone and no record says that the revert replaced it. */
  lemma RevertStaleIff(start: LogLevel, actions: seq<Action>, t: nat, mid: seq<Action>, level: LogLevel)
    requires var s := Run(start, actions); t !in s.pending && s.holder.None?
    requires forall i :: 0 <= i < |mid| ==> !(mid[i].StoreLocked? && mid[i].t == t)
    ensures var s := Step(Run(start, actions), LoadLocked(t));
            && Bounded(s)
            && var u := Step(RunFrom(s, mid), StoreLocked(t, level));
               && t in u.pending && u.levels[|u.levels| - 1] == level
               && u.pending[t].ticket == u.pending[t].from + ExchangesFrom(s, mid)
               && (u.pending[t].from == u.pending[t].ticket <==> ExchangesFrom(s, mid) == 0)
  {
    RunInv(start, actions);
    var s := Step(Run(start, actions), LoadLocked(t));
    StepBounded(Run(start, actions), LoadLocked(t));
    StepDistinct(Run(start, actions), LoadLocked(t));
    OnlyExchangesMeanwhile(s, t, mid);
  }

  function CaughtExchange(b: LogLevel, original: LogLevel, now: int, r: L.Reason): seq<Action> {
    [LoadLocked(1), Exchange(2, b), StoreLocked(1, original), Record(1, now, r), Record(2, now, r)]
  }

  lemma CaughtExchangeRun(start: LogLevel, b: LogLevel, original: LogLevel)
    requires b != start
    ensures Run(start, [] + [LoadLocked(1)] + [Exchange(2, b)] + [StoreLocked(1, original)])
         == State([start, b, original], map[1 := Pending(1, 0), 2 := Pending(0, 0)], Some(1), None, [])
  {
    CaughtExchangeLoads(start, b);
    RunLast(start, [] + [LoadLocked(1)] + [Exchange(2, b)], StoreLocked(1, original));
  }

  lemma CaughtExchangeLoads(start: LogLevel, b: LogLevel)
    requires b != start
    ensures Run(start, [] + [LoadLocked(1)] + [Exchange(2, b)])
         == State([start, b], map[2 := Pending(0, 0)], Some(1), Some(0), [])
  {
    var loaded := FirstLoad(start);
    LateExchange(start, b);
    RunLast(start, [] + [LoadLocked(1)], Exchange(2, b));
  }

  lemma FirstLoad(start: LogLevel) returns (s: State)
    ensures s == State([start], map[], Some(1), Some(0), []) == Run(start, [] + [LoadLocked(1)])
  {
    RunLast(start, [], LoadLocked(1));
    s := State([start], map[], Some(1), Some(0), []);
  }

  lemma LateExchange(start: LogLevel, b: LogLevel)
    requires b != start
    ensures Step(State([start], map[], Some(1), Some(0), []), Exchange(2, b))
         == State([start, b], map[2 := Pending(0, 0)], Some(1), Some(0), [])
  {
  }

  /** A dynamic change caught between load and store of a revert breaks the trail once both have
      recorded, unless the revert restores the level it loaded. */
  lemma CaughtExchangeBreaksUnless(start: LogLevel, b: LogLevel, original: LogLevel, now: int, r: L.Reason)
    requires b != start
    ensures Unbroken(start, Trail(Run(start, CaughtExchange(b, original, now, r)))) <==> original == start
  {
    CaughtExchangeRun(start, b, original);
    TwoRecords(start, [] + [LoadLocked(1)] + [Exchange(2, b)] + [StoreLocked(1, original)], 1, 2, now, r);
    assert [] + [LoadLocked(1)] + [Exchange(2, b)] + [StoreLocked(1, original)] + [Record(1, now, r)] + [Record(2, now, r)]
        == CaughtExchange(b, original, now, r);
    TwoEntries(start, Run(start, CaughtExchange(b, original, now, r)));
  }

  // ---------- Calls that nobody disturbs ----------

  lemma Two(s: State, a: Action, b: Action, mid: State, next: State)
    requires Bounded(s) && Step(s, a) == mid && Bounded(mid) && Step(mid, b) == next
    ensures RunFrom(s, [] + [a] + [b]) == next
  {
    assert ([] + [a] + [b])[..1] == [a] && [a][..0] == [];
    assert RunFrom(s, [a]) == mid;
  }

  /** The level is changed, and the change recorded as starting from the one before. */
  ghost predicate Changes(s: State, u: State, level: LogLevel, time: int, reason: L.Reason)
    requires s.levels != []
  {
    && u.levels == s.levels + [level] && u.pending == s.pending && u.holder == s.holder && u.loaded == s.loaded
    && u.records == s.records + [Entry(Present(s), Present(s), time, reason)]
  }

  /** In any reachable state with the mutex free, a call by a thread outside that nobody disturbs
      changes the level and records that: a dynamic one if the level is another one, a temporary one
      and a revert always. */
  lemma CallsAlone(start: LogLevel, actions: seq<Action>, t: nat, level: LogLevel, time: int, reason: L.Reason)
    requires var s := Run(start, actions); s.holder.None? && s.loaded.None? && t !in s.pending
    ensures var s := Run(start, actions);
            && (s.levels[Present(s)] != level ==>
                Changes(s, RunFrom(s, [] + [Exchange(t, level)] + [Record(t, time, reason)]), level, time, reason))
            && Changes(s, RunFrom(s, [] + [ExchangeLocked(t, level)] + [Record(t, time, reason)]), level, time, reason)
            && Changes(s, Step(Step(Step(s, LoadLocked(t)), StoreLocked(t, level)), Record(t, time, reason)), level, time, reason)
  {
    var s := Run(start, actions);
    if s.levels[Present(s)] != level {
      DynamicAlone(s, t, level, time, reason);
    }
    TemporaryAlone(s, t, level, time, reason);
    RevertAlone(s, t, level, time, reason);
  }

  lemma DynamicAlone(s: State, t: nat, level: LogLevel, time: int, reason: L.Reason)
    requires Bounded(s) && s.holder.None? && t !in s.pending && s.levels[Present(s)] != level
    ensures Changes(s, RunFrom(s, [] + [Exchange(t, level)] + [Record(t, time, reason)]), level, time, reason)
  {
    var mid := Changed(s, t, level, Present(s));
    StepBounded(s, Exchange(t, level));
    Two(s, Exchange(t, level), Record(t, time, reason), mid, Recorded(mid, t, time, reason));
    assert mid.pending - {t} == s.pending;
  }

  lemma TemporaryAlone(s: State, t: nat, level: LogLevel, time: int, reason: L.Reason)
    requires Bounded(s) && s.holder.None? && t !in s.pending
    ensures Changes(s, RunFrom(s, [] + [ExchangeLocked(t, level)] + [Record(t, time, reason)]), level, time, reason)
  {
    var mid := Changed(s, t, level, Present(s)).(holder := Some(t));
    StepBounded(s, ExchangeLocked(t, level));
    Two(s, ExchangeLocked(t, level), Record(t, time, reason), mid, Recorded(mid, t, time, reason));
    assert mid.pending - {t} == s.pending;
  }

  lemma RevertAlone(s: State, t: nat, level: LogLevel, time: int, reason: L.Reason)
    requires Bounded(s) && s.holder.None? && s.loaded.None? && t !in s.pending
    ensures Changes(s, Step(Step(Step(s, LoadLocked(t)), StoreLocked(t, level)), Record(t, time, reason)), level, time, reason)
  {
    var stored := Step(Step(s, LoadLocked(t)), StoreLocked(t, level));
    assert stored == Changed(s, t, level, Present(s)).(holder := Some(t));
    assert stored.pending - {t} == s.pending;
  }
}
