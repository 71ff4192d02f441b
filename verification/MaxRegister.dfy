// The lock-free maxima of the metrics: load, compare, compare-exchange in a loop.

module MaxRegister {
  // ---------- One thread ----------

  class AtomicCell {
    var value: nat

    constructor ()
      ensures value == 0
    {
      value := 0;
    }

    /** A failing exchange, spurious or not, reports the value it saw. */
    method CompareExchangeWeak(expected: nat, desired: nat, spurious: bool) returns (ok: bool, seen: nat)
      modifies this
      ensures ok <==> old(value) == expected && !spurious
      ensures value == if ok then desired else old(value)
      ensures seen == old(value)
    {
      seen := value;
      ok := value == expected && !spurious;
      if ok {
        value := desired;
      }
    }
  }

  function Max(a: nat, b: nat): nat {
    if a < b then b else a
  }

  /** The loop, with `spurious` spurious failures before the exchange may succeed. */
  method RaiseTo(cell: AtomicCell, candidate: nat, spurious: nat)
    modifies cell
    ensures cell.value == Max(old(cell.value), candidate)
    ensures old(cell.value) <= cell.value && candidate <= cell.value
    ensures cell.value == old(cell.value) || cell.value == candidate
  {
    var current_max := cell.value;
    var failures := spurious;
    while candidate > current_max
      invariant current_max == cell.value
      invariant Max(cell.value, candidate) == Max(old(cell.value), candidate)
      decreases candidate > current_max, failures
    {
      var ok, seen := cell.CompareExchangeWeak(current_max, candidate, failures > 0);
      if ok {
        break;
      }
      current_max := seen;
      failures := failures - 1;
    }
  }

  class LogMetrics {
    const max_log_latency_us: AtomicCell
    const max_flush_latency_us: AtomicCell
    const max_depth: AtomicCell
    var total_log_time_us: nat
    var total_flush_time_us: nat
    var current_depth: nat

    ghost predicate Valid() {
      && max_log_latency_us != max_flush_latency_us
      && max_log_latency_us != max_depth
      && max_flush_latency_us != max_depth
    }

    constructor ()
      ensures Valid() && fresh(max_log_latency_us) && fresh(max_flush_latency_us) && fresh(max_depth)
      ensures max_log_latency_us.value == max_flush_latency_us.value == max_depth.value == 0
      ensures total_log_time_us == total_flush_time_us == current_depth == 0
    {
      max_log_latency_us := new AtomicCell();
      max_flush_latency_us := new AtomicCell();
      max_depth := new AtomicCell();
      total_log_time_us, total_flush_time_us, current_depth := 0, 0, 0;
    }

    method RecordLogDuration(microseconds: nat, spurious: nat)
      requires Valid()
      modifies this`total_log_time_us, max_log_latency_us
      ensures total_log_time_us == old(total_log_time_us) + microseconds
      ensures max_log_latency_us.value == Max(old(max_log_latency_us.value), microseconds)
    {
      total_log_time_us := total_log_time_us + microseconds;
      RaiseTo(max_log_latency_us, microseconds, spurious);
    }

    method RecordFlushDuration(microseconds: nat, spurious: nat)
      requires Valid()
      modifies this`total_flush_time_us, max_flush_latency_us
      ensures total_flush_time_us == old(total_flush_time_us) + microseconds
      ensures max_flush_latency_us.value == Max(old(max_flush_latency_us.value), microseconds)
    {
      total_flush_time_us := total_flush_time_us + microseconds;
      RaiseTo(max_flush_latency_us, microseconds, spurious);
    }

    method UpdateQueueDepth(depth: nat, spurious: nat)
      requires Valid()
      modifies this`current_depth, max_depth
      ensures current_depth == depth && max_depth.value == Max(old(max_depth.value), depth)
      ensures current_depth <= max_depth.value
    {
      current_depth := depth;
      RaiseTo(max_depth, depth, spurious);
    }
  }

  // ---------- Many threads ----------

  /** Where a thread stands inside the call; no entry means outside. */
  datatype Pc = Entered(candidate: nat) | Loaded(candidate: nat, seen: nat)

  /** `current` is the value last stored by an entering call, `setter` the thread that stored it,
      `offered` all candidates so far, `completed` the candidates of finished calls. */
  datatype State = State(max: nat, current: nat, setter: nat, threads: map<nat, Pc>, offered: seq<nat>, completed: seq<nat>)

  datatype Action = Enter(thread: nat, candidate: nat) | Load(thread: nat) | Turn(thread: nat, spurious: bool)

  function Leave(s: State, thread: nat): State
    requires thread in s.threads
  {
    s.(threads := s.threads - {thread}, completed := s.completed + [s.threads[thread].candidate])
  }

  /** An action that is not enabled changes nothing. */
  function Step(s: State, a: Action): State {
    match a
    case Enter(t, v) =>
      if t in s.threads then s
      else s.(current := v, setter := t, threads := s.threads[t := Entered(v)], offered := s.offered + [v])
    case Load(t) =>
      if t in s.threads && s.threads[t].Entered? then
        s.(threads := s.threads[t := Loaded(s.threads[t].candidate, s.max)])
      else s
    case Turn(t, spurious) =>
      if t in s.threads && s.threads[t].Loaded? then
        var v, seen := s.threads[t].candidate, s.threads[t].seen;
        if v <= seen then Leave(s, t)
        else if s.max == seen && !spurious then Leave(s.(max := v), t)
        else s.(threads := s.threads[t := Loaded(v, s.max)])
      else s
  }

  const Initial: State := State(0, 0, 0, map[], [], [])

  function Run(s: State, actions: seq<Action>): State
    decreases |actions|
  {
    if actions == [] then s else Step(Run(s, actions[..|actions| - 1]), actions[|actions| - 1])
  }

  ghost predicate Pending(s: State, v: nat) {
    exists t :: t in s.threads && s.threads[t].candidate == v
  }

  /** Every value in sight was offered, and every offer is completed or pending. */
  ghost predicate AllOffered(s: State) {
    && (s.max == 0 || s.max in s.offered)
    && (s.current == 0 || s.current in s.offered)
    && (forall t :: t in s.threads ==> s.threads[t].candidate in s.offered)
    && (forall v :: v in s.completed ==> v in s.offered)
    && (forall v :: v in s.offered ==> v in s.completed || Pending(s, v))
  }

  ghost predicate Bounded(s: State) {
    && (forall t :: t in s.threads && s.threads[t].Loaded? ==> s.threads[t].seen <= s.max)
    && (forall v :: v in s.completed ==> v <= s.max)
    && (s.current <= s.max || SetterInside(s))
  }

  ghost predicate Inv(s: State) {
    AllOffered(s) && Bounded(s)
  }

  /** The call that stored the current value has not finished. */
  ghost predicate SetterInside(s: State) {
    s.setter in s.threads && s.threads[s.setter].candidate == s.current
  }

  lemma StepInv(s: State, a: Action)
    requires Inv(s)
    ensures Inv(Step(s, a)) && s.max <= Step(s, a).max
  {
    StepOffered(s, a);
    StepBounded(s, a);
  }

  lemma StepBounded(s: State, a: Action)
    requires Bounded(s)
    ensures Bounded(Step(s, a)) && s.max <= Step(s, a).max
  {
  }

  lemma StepOffered(s: State, a: Action)
    requires AllOffered(s)
    ensures AllOffered(Step(s, a))
  {
    forall v | v in Step(s, a).offered
      ensures v in Step(s, a).completed || Pending(Step(s, a), v)
    {
      OfferedStays(s, a, v);
    }
  }

  lemma OfferedStays(s: State, a: Action, v: nat)
    requires AllOffered(s) && v in Step(s, a).offered
    ensures v in Step(s, a).completed || Pending(Step(s, a), v)
  {
    var u := Step(s, a);
    if v in s.offered && v !in s.completed {
      var t :| t in s.threads && s.threads[t].candidate == v;
      if t in u.threads {
        assert u.threads[t].candidate == v;
      } else {
        assert v == u.completed[|u.completed| - 1];
      }
    } else if v !in s.offered {
      assert a.Enter? && u.threads[a.thread].candidate == v;
    }
  }

  lemma {:induction false} RunInv(actions: seq<Action>)
    ensures Inv(Run(Initial, actions))
    decreases |actions|
  {
    if actions == [] {
    } else {
      RunInv(actions[..|actions| - 1]);
      StepInv(Run(Initial, actions[..|actions| - 1]), actions[|actions| - 1]);
    }
  }

  /** The stored maximum never decreases, whatever happens next. */
  lemma {:induction false} MaxNeverDecreases(actions: seq<Action>, more: seq<Action>)
    ensures Run(Initial, actions).max <= Run(Initial, actions + more).max
    decreases |more|
  {
    if more == [] {
      assert actions + more == actions;
    } else {
      var before, last := actions + more[..|more| - 1], more[|more| - 1];
      assert actions + more == before + [last];
      MaxNeverDecreases(actions, more[..|more| - 1]);
      LastStepRaises(before, last);
    }
  }

  lemma LastStepRaises(before: seq<Action>, last: Action)
    ensures Run(Initial, before).max <= Run(Initial, before + [last]).max
  {
    assert (before + [last])[..|before|] == before;
    RunInv(before);
    StepInv(Run(Initial, before), last);
  }

  ghost predicate IsMaximum(m: nat, values: seq<nat>) {
    (m == 0 || m in values) && forall v :: v in values ==> v <= m
  }

  /** A max register: at every moment the stored value was offered and covers every completed
      call; with no call in progress it is the maximum of everything offered, and the value
      stored as current does not exceed it. */
  lemma MaxRegister(actions: seq<Action>)
    ensures var s := Run(Initial, actions);
            && (s.max == 0 || s.max in s.offered)
            && (forall v :: v in s.completed ==> v <= s.max)
            && (s.threads == map[] ==> IsMaximum(s.max, s.offered) && s.current <= s.max)
  {
    RunInv(actions);
    var s := Run(Initial, actions);
    if s.threads == map[] {
      forall v | v in s.offered
        ensures v <= s.max
      {
        assert !Pending(s, v);
      }
    }
  }

  /** In every interleaving the current depth exceeds the maximum only while the call that stored
      it is still in progress. */
  lemma CurrentLeadsOnlyInside(actions: seq<Action>)
    ensures var s := Run(Initial, actions); s.current > s.max ==> SetterInside(s)
  {
    RunInv(actions);
  }

  /** In every reachable state a call that enters puts the current depth above the maximum exactly if
      its value exceeds the maximum, and hence the value of every completed call. */
  lemma EnteringLeadsIff(actions: seq<Action>, t: nat, v: nat)
    requires t !in Run(Initial, actions).threads
    ensures var s := Run(Initial, actions);
            var u := Step(s, Enter(t, v));
            && (u.current > u.max <==> v > s.max)
            && (u.current > u.max ==> forall c :: c in s.completed ==> c < v)
  {
    RunInv(actions);
  }

  /** While a call is in progress the current depth can exceed the maximum. */
  lemma CurrentMayLeadMax()
    ensures exists actions :: Run(Initial, actions).current > Run(Initial, actions).max
  {
    var actions := [Enter(0, 1)];
    assert actions[..0] == [];
    assert Run(Initial, actions) == Step(Initial, Enter(0, 1));
  }

  // ---------- Calls one after the other ----------

  /** The maximum after recording the values in order, from zero. */
  function AfterCalls(values: seq<nat>): nat {
    if values == [] then 0 else Max(AfterCalls(values[..|values| - 1]), values[|values| - 1])
  }

  /** The greatest value recorded. */
  lemma {:induction false} GreatestRecorded(values: seq<nat>)
    ensures IsMaximum(AfterCalls(values), values)
  {
    if values == [] {
    } else {
      GreatestRecorded(values[..|values| - 1]);
      assert values == values[..|values| - 1] + [values[|values| - 1]];
    }
  }

  lemma RunLast(s: State, front: seq<Action>, last: Action)
    ensures Run(s, front + [last]) == Step(Run(s, front), last)
  {
    assert (front + [last])[..|front|] == front;
  }

  /** A call that nobody disturbs finishes after one load and one turn, with the greater value stored. */
  lemma CallAloneFinishes(actions: seq<Action>, t: nat, v: nat)
    requires t !in Run(Initial, actions).threads
    ensures var s := Run(Initial, actions);
            var u := Run(s, [] + [Enter(t, v)] + [Load(t)] + [Turn(t, false)]);
            && u.threads == s.threads && u.completed == s.completed + [v] && u.offered == s.offered + [v]
            && u.max == (if s.max < v then v else s.max) && u.current == v
  {
    var s := Run(Initial, actions);
    RunLast(s, [], Enter(t, v));
    RunLast(s, [] + [Enter(t, v)], Load(t));
    RunLast(s, [] + [Enter(t, v)] + [Load(t)], Turn(t, false));
    assert s.threads[t := Entered(v)][t := Loaded(v, s.max)] - {t} == s.threads;
  }

  /** A call about to compare and exchange finishes within two undisturbed turns, even if the first one
      fails for no reason or because others raised the value since the load. */
  lemma TwoTurnsFinish(actions: seq<Action>, t: nat, spurious: bool)
    requires var s := Run(Initial, actions); t in s.threads && s.threads[t].Loaded?
    ensures var s := Run(Initial, actions);
            var v := s.threads[t].candidate;
            var u := Run(s, [] + [Turn(t, spurious)] + [Turn(t, false)]);
            && u.threads == s.threads - {t} && u.completed == s.completed + [v]
            && u.max == (if s.max < v then v else s.max) && u.current == s.current
  {
    var s := Run(Initial, actions);
    RunInv(actions);
    FirstTurn(s, t, spurious);
    var mid := Step(s, Turn(t, spurious));
    SecondTurn(s, mid, t);
    Two(s, Turn(t, spurious), Turn(t, false), mid);
  }

  lemma Two(s: State, a: Action, b: Action, mid: State)
    requires Step(s, a) == mid
    ensures Run(s, [] + [a] + [b]) == Step(mid, b)
  {
    RunLast(s, [], a);
    RunLast(s, [] + [a], b);
  }

  /** The state in which the call of `t` has finished. */
  function Finished(s: State, t: nat): State
    requires t in s.threads
  {
    Leave(s.(max := Max(s.max, s.threads[t].candidate)), t)
  }

  lemma FirstTurn(s: State, t: nat, spurious: bool)
    requires Bounded(s) && t in s.threads && s.threads[t].Loaded?
    ensures var u := Step(s, Turn(t, spurious));
            u == Finished(s, t) || u == s.(threads := s.threads[t := Loaded(s.threads[t].candidate, s.max)])
  {
  }

  lemma SecondTurn(s: State, mid: State, t: nat)
    requires Bounded(s) && t in s.threads
    requires mid == Finished(s, t) || mid == s.(threads := s.threads[t := Loaded(s.threads[t].candidate, s.max)])
    ensures Step(mid, Turn(t, false)) == Finished(s, t)
  {
    assert s.threads[t := Loaded(s.threads[t].candidate, s.max)] - {t} == s.threads - {t};
  }
}
