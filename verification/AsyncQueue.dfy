// The queue between producers and the asynchronous worker, with graceful shutdown.

module AsyncQueue {
  import opened LogLevels

  type Record = string

  // ---------- The object, one atomic section at a time ----------

  class Queue {
    var queue: seq<Record>
    var shutdown_flag: bool
    var dropped_count: nat

    /** The object's part of a state of the step system below. */
    ghost predicate Shows(s: State)
      reads this
    {
      s.queue == queue && s.shutdown == shutdown_flag && s.dropped == dropped_count
    }

    constructor ()
      ensures queue == [] && !shutdown_flag && dropped_count == 0 && Shows(Initial)
    {
      queue, shutdown_flag, dropped_count := [], false, 0;
    }

    /** The flag test a push starts with, outside the mutex: it decides whether the producer
        joins those who will enqueue. */
    method MayPush(record: Record) returns (ok: bool)
      ensures forall s, p :: Shows(s) && p !in s.pushing ==>
                var t := Step(s, PushTest(p, record));
                Shows(t) && t.pushing == if ok then s.pushing[p := record] else s.pushing
    {
      ok := !shutdown_flag;
    }

    /** The section of push under the mutex. */
    method Enqueue(record: Record)
      modifies this`queue
      ensures queue == old(queue) + [record]
      ensures forall s, p :: old(Shows(s)) && p in s.pushing && s.pushing[p] == record ==> Shows(Step(s, PushEnqueue(p)))
    {
      queue := queue + [record];
    }

    /** The section of pop under the mutex, once its wait condition holds. */
    method Pop() returns (record: Option<Record>)
      requires queue != [] || shutdown_flag
      modifies this`queue
      ensures record.None? <==> old(queue) == []
      ensures record.Some? ==> old(queue) == [record.value] + queue
      ensures record.None? ==> queue == old(queue)
      ensures forall s :: old(Shows(s)) ==> Shows(Step(s, Action.Pop)) && PopOutcome(s) == Returns(record)
    {
      if queue == [] {
        return None;
      }
      record := Some(queue[0]);
      queue := queue[1..];
    }

    method RaiseFlag()
      modifies this`shutdown_flag
      ensures shutdown_flag
      ensures forall s, c, w :: old(Shows(s)) && c !in s.waiting ==> Shows(Step(s, Action.RaiseFlag(c, w)))
    {
      shutdown_flag := true;
    }

    /** The end of a waiting shutdown: the wait is over because the queue drained or time ran out. */
    method FinishShutdown() returns (drained: bool)
      modifies this`queue, this`dropped_count
      ensures drained <==> old(queue) == []
      ensures queue == []
      ensures dropped_count == if drained then old(dropped_count) else |old(queue)|
      ensures forall s, c :: old(Shows(s)) && c in s.waiting ==> Shows(Step(s, Action.FinishShutdown(c)))
    {
      drained := queue == [];
      if !drained {
        dropped_count := |queue|;
        while queue != []
          invariant dropped_count == |old(queue)|
          decreases |queue|
        {
          queue := queue[1..];
        }
      }
    }
  }

  // ---------- All interleavings ----------

  /** `pushing` holds the producers past the flag test with the record they will enqueue;
      `waiting` the callers inside a waiting shutdown. The other fields record the past: what was
      enqueued and removed, how many removals were pops, how many producers were past the test when
      the flag was first raised, how many enqueues came after that, and how often a timeout cleared
      the queue. */
  datatype State = State(
    queue: seq<Record>,
    shutdown: bool,
    dropped: nat,
    pushing: map<nat, Record>,
    waiting: set<nat>,
    enqueued: seq<Record>,
    removed: seq<Record>,
    popped: nat,
    pastTest: nat,
    late: nat,
    clearings: nat)

  datatype Action =
    | PushTest(producer: nat, record: Record)
    | PushEnqueue(producer: nat)
    | Pop
    | RaiseFlag(caller: nat, waits: bool)
    | FinishShutdown(caller: nat)

  const Initial: State := State([], false, 0, map[], {}, [], [], 0, 0, 0, 0)

  /** What a pop returns: nothing while it has to wait. */
  datatype PopResult = Waits | Returns(record: Option<Record>)

  function PopOutcome(s: State): PopResult {
    if s.queue != [] then Returns(Some(s.queue[0]))
    else if s.shutdown then Returns(None)
    else Waits
  }

  /** An action that is not enabled changes nothing. */
  function Step(s: State, a: Action): State {
    match a
    case PushTest(p, record) =>
      if p in s.pushing || s.shutdown then s else s.(pushing := s.pushing[p := record])
    case PushEnqueue(p) =>
      if p !in s.pushing then s
      else
        var record := s.pushing[p];
        s.(queue := s.queue + [record], enqueued := s.enqueued + [record], pushing := s.pushing - {p},
           late := if s.shutdown then s.late + 1 else s.late)
    case Pop =>
      if s.queue == [] then s
      else s.(queue := s.queue[1..], removed := s.removed + [s.queue[0]], popped := s.popped + 1)
    case RaiseFlag(caller, waits) =>
      if caller in s.waiting then s
      else
        s.(shutdown := true, pastTest := if s.shutdown then s.pastTest else |s.pushing|,
           waiting := if waits then s.waiting + {caller} else s.waiting)
    case FinishShutdown(caller) =>
      if caller !in s.waiting then s
      else if s.queue == [] then s.(waiting := s.waiting - {caller})
      else
        s.(waiting := s.waiting - {caller}, dropped := |s.queue|, queue := [],
           removed := s.removed + s.queue, clearings := s.clearings + 1)
  }

  function Run(s: State, actions: seq<Action>): State
    decreases |actions|
  {
    if actions == [] then s else Step(Run(s, actions[..|actions| - 1]), actions[|actions| - 1])
  }

  // ---------- The invariant ----------

  ghost predicate Conserved(s: State) {
    s.enqueued == s.removed + s.queue
  }

  /** `|removed| - popped` records were dropped by timeouts. */
  ghost predicate Counted(s: State) {
    && s.popped <= |s.removed|
    && (s.clearings == 0 ==> s.popped == |s.removed| && s.dropped == 0)
    && (s.clearings == 1 ==> s.popped + s.dropped == |s.removed|)
    && (s.clearings >= 1 ==> s.shutdown && s.dropped > 0)
    && (s.clearings >= 2 ==> s.popped + s.dropped < |s.removed|)
  }

  ghost predicate LateCounted(s: State) {
    && (s.waiting != {} ==> s.shutdown)
    && (if s.shutdown then s.late + |s.pushing| == s.pastTest else s.late == 0)
  }

  lemma StepConserved(s: State, a: Action)
    requires Conserved(s)
    ensures Conserved(Step(s, a))
  {
    if a.Pop? && s.queue != [] {
      assert s.queue == [s.queue[0]] + s.queue[1..];
    }
  }

  lemma StepCounted(s: State, a: Action)
    requires Counted(s) && LateCounted(s)
    ensures Counted(Step(s, a)) && LateCounted(Step(s, a))
  {
    if a.PushEnqueue? && a.producer in s.pushing {
      assert (s.pushing - {a.producer}).Keys == s.pushing.Keys - {a.producer};
      assert |s.pushing - {a.producer}| == |s.pushing| - 1;
    }
  }

  lemma {:induction false} RunInv(actions: seq<Action>)
    ensures Conserved(Run(Initial, actions)) && Counted(Run(Initial, actions)) && LateCounted(Run(Initial, actions))
    decreases |actions|
  {
    if actions == [] {
    } else {
      RunInv(actions[..|actions| - 1]);
      StepConserved(Run(Initial, actions[..|actions| - 1]), actions[|actions| - 1]);
      StepCounted(Run(Initial, actions[..|actions| - 1]), actions[|actions| - 1]);
    }
  }

  // ---------- Results ----------

  /** In every interleaving records leave in the order they came, popped or dropped. */
  lemma FifoConservation(actions: seq<Action>)
    ensures var s := Run(Initial, actions);
            s.enqueued == s.removed + s.queue
  {
    RunInv(actions);
  }

  /** The reported drop count accounts for every record exactly when at most one shutdown
      timed out: a second timeout overwrites the count of the first. */
  lemma DropCountAccountsIff(actions: seq<Action>)
    ensures var s := Run(Initial, actions);
            s.popped + s.dropped + |s.queue| == |s.enqueued| <==> s.clearings <= 1
  {
    RunInv(actions);
  }

  /** Two timed-out shutdowns with a late producer between them do lose a count. */
  lemma SecondTimeoutLosesCount(x: Record, y: Record)
    ensures var s := Run(Initial, [PushTest(1, x), PushTest(2, y), PushEnqueue(1), RaiseFlag(3, true), RaiseFlag(4, true),
                                   FinishShutdown(3), PushEnqueue(2), FinishShutdown(4)]);
            |s.enqueued| == 2 && s.queue == [] && s.popped == 0 && s.dropped == 1
  {
    var before := TwoShutdownsWait(x, y);
    TwoTimeouts(before, x, y);
    assert before + [FinishShutdown(3)] + [PushEnqueue(2)] + [FinishShutdown(4)]
        == [PushTest(1, x), PushTest(2, y), PushEnqueue(1), RaiseFlag(3, true), RaiseFlag(4, true),
            FinishShutdown(3), PushEnqueue(2), FinishShutdown(4)];
  }

  /** One record queued, one producer past the test, two shutdowns waiting. */
  lemma TwoShutdownsWait(x: Record, y: Record) returns (actions: seq<Action>)
    ensures actions == [PushTest(1, x), PushTest(2, y), PushEnqueue(1), RaiseFlag(3, true), RaiseFlag(4, true)]
    ensures Run(Initial, actions) == State([x], true, 0, map[2 := y], {3, 4}, [x], [], 0, 1, 0, 0)
  {
    var s1 := Initial.(pushing := map[1 := x]);
    var s2 := Initial.(pushing := map[1 := x, 2 := y]);
    var s3 := State([x], false, 0, map[2 := y], {}, [x], [], 0, 0, 0, 0);
    var s4 := State([x], true, 0, map[2 := y], {3}, [x], [], 0, 1, 0, 0);
    var s5 := s4.(waiting := {3, 4});
    assert s2.pushing - {1} == s3.pushing;
    actions := [];
    actions := Then(actions, PushTest(1, x), Initial, s1);
    actions := Then(actions, PushTest(2, y), s1, s2);
    actions := Then(actions, PushEnqueue(1), s2, s3);
    actions := Then(actions, RaiseFlag(3, true), s3, s4);
    actions := Then(actions, RaiseFlag(4, true), s4, s5);
  }

  lemma Then(front: seq<Action>, a: Action, s: State, next: State) returns (actions: seq<Action>)
    requires Run(Initial, front) == s && Step(s, a) == next
    ensures actions == front + [a] && Run(Initial, actions) == next
  {
    RunStep(front, a);
    actions := front + [a];
  }

  lemma TwoTimeouts(before: seq<Action>, x: Record, y: Record)
    requires Run(Initial, before) == State([x], true, 0, map[2 := y], {3, 4}, [x], [], 0, 1, 0, 0)
    ensures var s := Run(Initial, before + [FinishShutdown(3)] + [PushEnqueue(2)] + [FinishShutdown(4)]);
            |s.enqueued| == 2 && s.queue == [] && s.popped == 0 && s.dropped == 1
  {
    RunStep(before, FinishShutdown(3));
    RunStep(before + [FinishShutdown(3)], PushEnqueue(2));
    RunStep(before + [FinishShutdown(3)] + [PushEnqueue(2)], FinishShutdown(4));
  }

  lemma RunStep(actions: seq<Action>, a: Action)
    ensures Run(Initial, actions + [a]) == Step(Run(Initial, actions), a)
  {
    assert (actions + [a])[..|actions|] == actions;
  }

  /** Pop reports failure only on an empty queue after shutdown began; otherwise it returns the
      oldest record, or waits for one. */
  lemma PopFailsOnlyAtTheEnd(actions: seq<Action>)
    ensures var s := Run(Initial, actions);
            && (PopOutcome(s) == Returns(None) <==> s.shutdown && s.queue == [])
            && (s.queue != [] ==>
                |s.removed| < |s.enqueued| &&
                PopOutcome(s) == Returns(Some(s.enqueued[|s.removed|]))
                && Step(s, Pop).removed == s.removed + [s.enqueued[|s.removed|]])
  {
    RunInv(actions);
  }

  /** Enqueues after the flag come only from producers already past the test: they number
      exactly those past it then, less those still on their way. */
  lemma LateEnqueuesBounded(actions: seq<Action>)
    ensures var s := Run(Initial, actions);
            && (s.shutdown ==> s.late + |s.pushing| == s.pastTest)
            && s.late <= s.pastTest
  {
    RunInv(actions);
  }

  /** Once the flag is up it stays up, and what was past the test then is settled. */
  lemma {:induction false} ShutdownIsFinal(actions: seq<Action>, more: seq<Action>)
    requires Run(Initial, actions).shutdown
    ensures Run(Initial, actions + more).shutdown
    ensures Run(Initial, actions + more).pastTest == Run(Initial, actions).pastTest
    decreases |more|
  {
    if more == [] {
      assert actions + more == actions;
    } else {
      var before, last := actions + more[..|more| - 1], more[|more| - 1];
      assert actions + more == before + [last];
      ShutdownIsFinal(actions, more[..|more| - 1]);
      RunStep(before, last);
    }
  }

  // ---------- Every push before the flag enqueues ----------

  lemma {:induction false} StaysPushing(s: State, mid: seq<Action>, p: nat, record: Record)
    requires p in s.pushing && s.pushing[p] == record
    requires forall i :: 0 <= i < |mid| ==> mid[i] != PushEnqueue(p)
    ensures p in Run(s, mid).pushing && Run(s, mid).pushing[p] == record
    decreases |mid|
  {
    if mid == [] {
    } else {
      StaysPushing(s, mid[..|mid| - 1], p, record);
    }
  }

  /** A push that finds the flag down enqueues its record at the end, whatever happens between its two
      sections, the rise of the flag included; one that finds it up changes nothing. */
  lemma PushEnqueues(s: State, mid: seq<Action>, p: nat, record: Record)
    requires p !in s.pushing && forall i :: 0 <= i < |mid| ==> mid[i] != PushEnqueue(p)
    ensures !s.shutdown ==>
              var before := Run(Step(s, PushTest(p, record)), mid);
              var after := Step(before, PushEnqueue(p));
              after.queue == before.queue + [record] && after.enqueued == before.enqueued + [record]
    ensures s.shutdown ==> Step(s, PushTest(p, record)) == s
  {
    if !s.shutdown {
      StaysPushing(Step(s, PushTest(p, record)), mid, p, record);
    }
  }

  /** A waiting shutdown that runs out of time empties the queue and counts what was in it. */
  lemma ShutdownRuns(s: State, caller: nat)
    requires caller !in s.waiting
    ensures var u := Step(s, RaiseFlag(caller, true));
            var v := Step(u, FinishShutdown(caller));
            && u.shutdown && u.queue == s.queue && v.shutdown && v.queue == []
            && v.removed == s.removed + s.queue && v.popped == s.popped
            && v.dropped == if s.queue == [] then s.dropped else |s.queue|
  {
    assert s.removed + [] == s.removed;
  }
}
