// The positions of the signal-safe ring when flushes do overlap: what log and flush allow, because
// the flag in the source guards only the flush inside a write.

module OverlappingFlushes {

  /** One more than the largest size_t. */
  const WORD: nat := 0x1_0000_0000_0000_0000

  type Size = n: nat | n < WORD

  /** Where a reservation stands: after the load of the write position, or of both. */
  datatype Writer = HasWrite(w: nat) | HasBoth(w: nat, r: nat)

  /** Where a flush stands: with its target only, or also with the read position it loaded. */
  datatype Flush = HasTarget(target: nat) | HasRange(target: nat, from: nat)

  datatype State = State(write: nat, read: nat, writers: map<nat, Writer>, flushes: map<nat, Flush>)

  /** `FlushEnd` is the emission and the store after it. */
  datatype Action =
    | LoadWrite(t: nat)
    | LoadRead(t: nat)
    | Exchange(t: nat, len: Size)
    | FlushTarget(f: nat)
    | FlushRead(f: nat)
    | FlushEnd(f: nat)

  const Initial: State := State(0, 0, map[], map[])

  /** The space a writer computes from the positions it loaded, in size_t arithmetic. */
  function Available(capacity: Size, w: nat, r: nat): nat {
    (capacity - (w - r)) % WORD
  }

  /** The position a flush stores when it is done. */
  function Stored(flush: Flush): nat
    requires flush.HasRange?
  {
    if flush.from < flush.target then flush.target else flush.from
  }

  predicate Reserves(s: State, capacity: Size, a: Action) {
    && a.Exchange? && a.t in s.writers && s.writers[a.t].HasBoth?
    && s.write == s.writers[a.t].w && a.len <= Available(capacity, s.writers[a.t].w, s.writers[a.t].r)
  }

  predicate Ends(s: State, a: Action) {
    a.FlushEnd? && a.f in s.flushes && s.flushes[a.f].HasRange?
  }

  /** An action that is not enabled changes nothing. A writer may start over at any time. */
  function Step(s: State, capacity: Size, a: Action): State {
    match a
    case LoadWrite(t) => s.(writers := s.writers[t := HasWrite(s.write)])
    case LoadRead(t) =>
      if t in s.writers && s.writers[t].HasWrite? then s.(writers := s.writers[t := HasBoth(s.writers[t].w, s.read)])
      else s
    case Exchange(t, len) =>
      if Reserves(s, capacity, a) then s.(write := s.write + len, writers := s.writers - {t})
      else s
    case FlushTarget(f) =>
      if f in s.flushes then s else s.(flushes := s.flushes[f := HasTarget(s.write)])
    case FlushRead(f) =>
      if f !in s.flushes || s.flushes[f].HasRange? then s
      else if s.flushes[f].target == s.read then s.(flushes := s.flushes - {f})
      else s.(flushes := s.flushes[f := HasRange(s.flushes[f].target, s.read)])
    case FlushEnd(f) =>
      if Ends(s, a) then s.(read := Stored(s.flushes[f]), flushes := s.flushes - {f}) else s
  }

  function Run(s: State, capacity: Size, actions: seq<Action>): State
    decreases |actions|
  {
    if actions == [] then s else Step(Run(s, capacity, actions[..|actions| - 1]), capacity, actions[|actions| - 1])
  }

  lemma RunLast(s: State, capacity: Size, front: seq<Action>, last: Action)
    ensures Run(s, capacity, front + [last]) == Step(Run(s, capacity, front), capacity, last)
  {
    assert (front + [last])[..|front|] == front;
  }

  /** No position in sight is beyond the write position. */
  ghost predicate Behind(s: State) {
    && s.read <= s.write
    && (forall t :: t in s.writers ==> s.writers[t].w <= s.write)
    && (forall f :: f in s.flushes ==>
         s.flushes[f].target <= s.write && (s.flushes[f].HasRange? ==> s.flushes[f].from <= s.write))
  }

  lemma {:induction false} RunBehind(capacity: Size, actions: seq<Action>)
    ensures Behind(Run(Initial, capacity, actions))
    decreases |actions|
  {
    if actions == [] {
    } else {
      RunBehind(capacity, actions[..|actions| - 1]);
    }
  }

  // ---------- When the flushes under way agree ----------

  /** The flush will store a position, unless it is found done when it loads the read position. */
  predicate Live(s: State, flush: Flush) {
    flush.HasRange? || flush.target != s.read
  }

  /** The position a live flush stores if it goes on at once. */
  function Goal(s: State, flush: Flush): nat {
    if flush.HasRange? then Stored(flush) else if s.read < flush.target then flush.target else s.read
  }

  /** All live flushes have one goal, not below the read position. */
  ghost predicate Settled(s: State) {
    && (forall f :: f in s.flushes && Live(s, s.flushes[f]) ==> s.read <= Goal(s, s.flushes[f]))
    && (forall f, g :: f in s.flushes && g in s.flushes && Live(s, s.flushes[f]) && Live(s, s.flushes[g]) ==>
          Goal(s, s.flushes[f]) == Goal(s, s.flushes[g]))
  }

  /** Whatever the writers and the flushes under way do from here on, while no other flush starts,
      the read position does not fall. */
  ghost predicate NeverFalls(s: State, capacity: Size) {
    forall more, a: Action :: NoStart(more) && !a.FlushTarget? ==> Holds(Run(s, capacity, more), capacity, a)
  }

  ghost predicate Holds(s: State, capacity: Size, a: Action) {
    s.read <= Step(s, capacity, a).read
  }

  predicate NoStart(actions: seq<Action>) {
    forall i :: 0 <= i < |actions| ==> !actions[i].FlushTarget?
  }

  lemma SettledStep(s: State, capacity: Size, a: Action)
    requires Settled(s) && !a.FlushTarget?
    ensures Settled(Step(s, capacity, a)) && Holds(s, capacity, a)
  {
    match a
    case FlushRead(f) => SettledLoad(s, capacity, f);
    case FlushEnd(f) => SettledEnd(s, capacity, f);
    case _ =>
  }

  /** Loading the read position changes neither which flushes are live nor their goals. */
  lemma LoadKeepsGoals(s: State, capacity: Size, f: nat, g: nat)
    requires g in Step(s, capacity, FlushRead(f)).flushes
    ensures var u := Step(s, capacity, FlushRead(f));
            && g in s.flushes && u.read == s.read
            && Live(u, u.flushes[g]) == Live(s, s.flushes[g]) && Goal(u, u.flushes[g]) == Goal(s, s.flushes[g])
  {
  }

  lemma SettledLoad(s: State, capacity: Size, f: nat)
    requires Settled(s)
    ensures Settled(Step(s, capacity, FlushRead(f)))
  {
    var u := Step(s, capacity, FlushRead(f));
    forall g | g in u.flushes && Live(u, u.flushes[g])
      ensures u.read <= Goal(u, u.flushes[g])
    {
      LoadKeepsGoals(s, capacity, f, g);
    }
    forall g, h | g in u.flushes && h in u.flushes && Live(u, u.flushes[g]) && Live(u, u.flushes[h])
      ensures Goal(u, u.flushes[g]) == Goal(u, u.flushes[h])
    {
      LoadKeepsGoals(s, capacity, f, g);
      LoadKeepsGoals(s, capacity, f, h);
    }
  }

  lemma SettledEnd(s: State, capacity: Size, f: nat)
    requires Settled(s)
    ensures Settled(Step(s, capacity, FlushEnd(f))) && Holds(s, capacity, FlushEnd(f))
  {
  }

  lemma {:induction false} SettledRun(s: State, capacity: Size, more: seq<Action>)
    requires Settled(s) && NoStart(more)
    ensures Settled(Run(s, capacity, more))
    decreases |more|
  {
    if more == [] {
    } else {
      var front, last := more[..|more| - 1], more[|more| - 1];
      SettledRun(s, capacity, front);
      SettledStep(Run(s, capacity, front), capacity, last);
    }
  }

  /** A live flush can be brought to the point where only its end is missing. */
  lemma MadeReady(s: State, capacity: Size, f: nat) returns (u: State)
    requires f in s.flushes && Live(s, s.flushes[f])
    ensures u == Run(s, capacity, [FlushRead(f)]) == Step(s, capacity, FlushRead(f))
    ensures f in u.flushes && u.flushes[f].HasRange? && Stored(u.flushes[f]) == Goal(s, s.flushes[f])
    ensures u.read == s.read && forall g :: g != f && g in s.flushes ==> g in u.flushes && u.flushes[g] == s.flushes[g]
  {
    u := Step(s, capacity, FlushRead(f));
    RunLast(s, capacity, [], FlushRead(f));
    assert [] + [FlushRead(f)] == [FlushRead(f)];
  }

  lemma LowGoalFalls(s: State, capacity: Size, f: nat)
    requires f in s.flushes && Live(s, s.flushes[f]) && Goal(s, s.flushes[f]) < s.read
    ensures !NeverFalls(s, capacity)
  {
    var u := MadeReady(s, capacity, f);
    assert NoStart([FlushRead(f)]) && !Holds(u, capacity, FlushEnd(f));
  }

  /** Two flushes with different goals: both load, the one with the higher goal ends first. */
  lemma DifferentGoalsFall(s: State, capacity: Size, f: nat, g: nat)
    requires f in s.flushes && Live(s, s.flushes[f]) && g in s.flushes && Live(s, s.flushes[g])
    requires Goal(s, s.flushes[f]) < Goal(s, s.flushes[g])
    ensures !NeverFalls(s, capacity)
  {
    var u := MadeReady(s, capacity, f);
    var v := MadeReady(u, capacity, g);
    var w := Step(v, capacity, FlushEnd(g));
    assert f in w.flushes && w.flushes[f] == u.flushes[f] && w.read == Goal(s, s.flushes[g]);
    RunLast(s, capacity, [FlushRead(f)], FlushRead(g));
    RunLast(s, capacity, [FlushRead(f)] + [FlushRead(g)], FlushEnd(g));
    var more := [FlushRead(f)] + [FlushRead(g)] + [FlushEnd(g)];
    assert Run(s, capacity, more) == w;
    assert NoStart(more) && !Holds(w, capacity, FlushEnd(f));
  }

  /** From any state, however many flushes are under way, the read position can never fall while no
      other flush starts if and only if all live flushes have one goal, not below it. */
  lemma NeverFallsIffSettled(s: State, capacity: Size)
    ensures NeverFalls(s, capacity) <==> Settled(s)
  {
    if Settled(s) {
      forall more, a: Action | NoStart(more) && !a.FlushTarget?
        ensures Holds(Run(s, capacity, more), capacity, a)
      {
        SettledRun(s, capacity, more);
        SettledStep(Run(s, capacity, more), capacity, a);
      }
    } else if f :| f in s.flushes && Live(s, s.flushes[f]) && Goal(s, s.flushes[f]) < s.read {
      LowGoalFalls(s, capacity, f);
    } else {
      var f, g :| f in s.flushes && g in s.flushes && Live(s, s.flushes[f]) && Live(s, s.flushes[g])
                  && Goal(s, s.flushes[f]) != Goal(s, s.flushes[g]);
      if Goal(s, s.flushes[f]) < Goal(s, s.flushes[g]) {
        DifferentGoalsFall(s, capacity, f, g);
      } else {
        DifferentGoalsFall(s, capacity, g, f);
      }
    }
  }

  /** In a reachable state where the read position cannot fall, another flush may start without
      endangering it if and only if each live flush will store the present write position, so that
      nothing was reserved since. */
  lemma MayStartIff(capacity: Size, actions: seq<Action>, f: nat)
    requires var s := Run(Initial, capacity, actions); NeverFalls(s, capacity) && f !in s.flushes
    ensures var s := Run(Initial, capacity, actions);
            NeverFalls(Step(s, capacity, FlushTarget(f)), capacity)
            <==> forall g :: g in s.flushes && Live(s, s.flushes[g]) ==> Goal(s, s.flushes[g]) == s.write
  {
    var s := Run(Initial, capacity, actions);
    var u := Step(s, capacity, FlushTarget(f));
    RunBehind(capacity, actions);
    NeverFallsIffSettled(s, capacity);
    NeverFallsIffSettled(u, capacity);
    assert forall g :: g in s.flushes ==> u.flushes[g] == s.flushes[g] && Goal(u, u.flushes[g]) == Goal(s, s.flushes[g]);
    assert u.flushes[f] == HasTarget(s.write) && Goal(u, u.flushes[f]) == s.write;
  }

  // ---------- The capacity ----------

  ghost predicate NeverRetreats(capacity: Size, actions: seq<Action>) {
    forall i, j :: 0 <= i <= j <= |actions| ==>
      Run(Initial, capacity, actions[..i]).read <= Run(Initial, capacity, actions[..j]).read
  }

  lemma StepAt(capacity: Size, actions: seq<Action>, i: nat)
    requires i < |actions|
    ensures Run(Initial, capacity, actions[..i + 1]) == Step(Run(Initial, capacity, actions[..i]), capacity, actions[i])
  {
    assert actions[..i + 1] == actions[..i] + [actions[i]];
    RunLast(Initial, capacity, actions[..i], actions[i]);
  }

  /** At most the capacity is outstanding, and no writer computes with more. */
  ghost predicate Within(s: State, capacity: Size) {
    && s.read <= s.write <= s.read + capacity
    && (forall t :: t in s.writers && s.writers[t].HasWrite? ==> s.writers[t].w <= s.read + capacity)
    && (forall t :: t in s.writers && s.writers[t].HasBoth? ==>
          s.writers[t].r <= s.read && s.writers[t].w <= s.writers[t].r + capacity)
  }

  lemma NoWrap(capacity: Size, w: nat, r: nat)
    requires r <= w <= r + capacity
    ensures Available(capacity, w, r) == capacity - (w - r)
  {
  }

  lemma WithinStep(s: State, capacity: Size, a: Action)
    requires Behind(s) && Within(s, capacity)
    requires s.read <= Step(s, capacity, a).read && Behind(Step(s, capacity, a))
    ensures Within(Step(s, capacity, a), capacity)
  {
    if Reserves(s, capacity, a) {
      NoWrap(capacity, s.writers[a.t].w, s.writers[a.t].r);
    }
  }

  /** Over a run in which the read position never falls at most the capacity is outstanding, although
      each writer tests with positions that may be out of date. */
  lemma {:induction false} WithinCapacity(capacity: Size, actions: seq<Action>, i: nat)
    requires NeverRetreats(capacity, actions) && i <= |actions|
    ensures Within(Run(Initial, capacity, actions[..i]), capacity)
    decreases i
  {
    if i == 0 {
    } else {
      WithinCapacity(capacity, actions, i - 1);
      StepAt(capacity, actions, i - 1);
      RunBehind(capacity, actions[..i - 1]);
      RunBehind(capacity, actions[..i]);
      WithinStep(Run(Initial, capacity, actions[..i - 1]), capacity, actions[i - 1]);
    }
  }

  /** Once more than the capacity is outstanding the space computed wraps around, and a reservation
      far beyond the capacity succeeds. */
  lemma OverfullReserves(s: State, capacity: Size, t: nat, len: Size)
    requires s.read + capacity < s.write <= s.read + capacity + WORD - len
    ensures var u := Step(Step(s, capacity, LoadWrite(t)), capacity, LoadRead(t));
            Step(u, capacity, Exchange(t, len)).write == s.write + len
  {
    assert (capacity - (s.write - s.read)) + WORD == Available(capacity, s.write, s.read);
  }

  lemma Then(s: State, capacity: Size, front: seq<Action>, a: Action, mid: State, next: State)
    requires Run(s, capacity, front) == mid && Step(mid, capacity, a) == next
    ensures Run(s, capacity, front + [a]) == next
  {
    RunLast(s, capacity, front, a);
  }

  /** An undisturbed reservation that fits. */
  lemma ReservedAlone(capacity: Size, before: seq<Action>, s: State, len: Size) returns (actions: seq<Action>)
    requires Run(Initial, capacity, before) == s && s.writers == map[]
    requires s.read <= s.write && s.write + len <= s.read + capacity
    ensures actions == before + [LoadWrite(0)] + [LoadRead(0)] + [Exchange(0, len)]
    ensures Run(Initial, capacity, actions) == s.(write := s.write + len)
  {
    var u := s.(writers := map[0 := HasWrite(s.write)]);
    var v := s.(writers := map[0 := HasBoth(s.write, s.read)]);
    NoWrap(capacity, s.write, s.read);
    Then(Initial, capacity, before, LoadWrite(0), s, u);
    Then(Initial, capacity, before + [LoadWrite(0)], LoadRead(0), u, v);
    assert v.writers - {0} == map[];
    Then(Initial, capacity, before + [LoadWrite(0)] + [LoadRead(0)], Exchange(0, len), v, s.(write := s.write + len));
    actions := before + [LoadWrite(0)] + [LoadRead(0)] + [Exchange(0, len)];
  }

  lemma FirstFlushLoads() returns (actions: seq<Action>)
    ensures Run(Initial, 2, actions) == State(2, 0, map[], map[0 := HasRange(1, 0)])
  {
    var as1 := ReservedAlone(2, [], Initial, 1);
    var s1 := State(1, 0, map[], map[]);
    var as2 := as1 + [FlushTarget(0)];
    Then(Initial, 2, as1, FlushTarget(0), s1, State(1, 0, map[], map[0 := HasTarget(1)]));
    var as3 := as2 + [FlushRead(0)];
    Then(Initial, 2, as2, FlushRead(0), State(1, 0, map[], map[0 := HasTarget(1)]), State(1, 0, map[], map[0 := HasRange(1, 0)]));
    actions := ReservedAlone(2, as3, State(1, 0, map[], map[0 := HasRange(1, 0)]), 1);
  }

  lemma SecondFlushEnds(before: seq<Action>) returns (actions: seq<Action>)
    requires Run(Initial, 2, before) == State(2, 0, map[], map[0 := HasRange(1, 0)])
    ensures Run(Initial, 2, actions) == State(4, 2, map[], map[0 := HasRange(1, 0)])
  {
    var one := HasRange(1, 0);
    var as1 := before + [FlushTarget(1)];
    var as2 := as1 + [FlushRead(1)];
    var as3 := as2 + [FlushEnd(1)];
    var s1 := State(2, 0, map[], map[0 := one, 1 := HasTarget(2)]);
    var s2 := State(2, 0, map[], map[0 := one, 1 := HasRange(2, 0)]);
    Then(Initial, 2, before, FlushTarget(1), State(2, 0, map[], map[0 := one]), s1);
    Then(Initial, 2, as1, FlushRead(1), s1, s2);
    assert s2.flushes - {1} == map[0 := one];
    Then(Initial, 2, as2, FlushEnd(1), s2, State(2, 2, map[], map[0 := one]));
    actions := ReservedAlone(2, as3, State(2, 2, map[], map[0 := one]), 2);
  }

  /** Two flushes that end in the opposite order: the read position falls back, more than the capacity
      is outstanding, and then a reservation of a thousand bytes succeeds in a ring of two. */
  lemma OverlapRetreats() returns (actions: seq<Action>)
    ensures !NeverRetreats(2, actions)
    ensures var s := Run(Initial, 2, actions);
            && s.write > s.read + 2
            && Step(Step(Step(s, 2, LoadWrite(0)), 2, LoadRead(0)), 2, Exchange(0, 1000)).write == s.write + 1000
  {
    var before := FirstFlushLoads();
    before := SecondFlushEnds(before);
    actions := before + [FlushEnd(0)];
    StepAt(2, actions, |before|);
    assert actions[..|before|] == before && actions[..|before| + 1] == actions;
    OverfullReserves(Run(Initial, 2, actions), 2, 0, 1000);
  }
}
