// Progress of the cloud sink's worker: one turn of its loop as a whole run, and how many turns
// deliver everything.

module CloudRounds {
  import opened CloudBatching

  /** One turn of the loop in which every attempt succeeds. */
  function Round(timedOut: bool): seq<Action> {
    [] + [LoopTest] + [Collect] + [Decide(timedOut)] + [Attempt(true)]
  }

  lemma Then(s: State, config: Config, front: seq<Action>, a: Action, mid: State, next: State)
    requires Run(s, config, front) == mid && Step(mid, config, a) == next
    ensures Run(s, config, front + [a]) == next
  {
    assert (front + [a])[..|front|] == front;
  }

  lemma Four(s: State, config: Config, a: Action, b: Action, c: Action, d: Action, m: State, n: State, o: State, next: State)
    requires Step(s, config, a) == m && Step(m, config, b) == n && Step(n, config, c) == o && Step(o, config, d) == next
    ensures Run(s, config, [] + [a] + [b] + [c] + [d]) == next
  {
    Then(s, config, [], a, s, m);
    Then(s, config, [] + [a], b, m, n);
    Then(s, config, [] + [a] + [b], c, n, o);
    Then(s, config, [] + [a] + [b] + [c], d, o, next);
  }

  /** How many messages the batch takes over. */
  function Taken(s: State, config: Config): nat
    requires |s.batch| <= config.batchSize
  {
    if |s.queue| <= config.batchSize - |s.batch| then |s.queue| else config.batchSize - |s.batch|
  }

  /** The batch is handed over if it is full, or the wait is over and there is something in it. */
  predicate Sends(s: State, config: Config, timedOut: bool)
    requires |s.batch| <= config.batchSize
  {
    var size := |s.batch| + Taken(s, config);
    size > 0 && (size >= config.batchSize || timedOut)
  }

  /** From `s` to `u` the batch was topped up from the front of the queue, and delivered if `sends`. */
  ghost predicate RoundOutcome(s: State, u: State, config: Config, sends: bool)
    requires |s.batch| <= config.batchSize
  {
    var k := Taken(s, config);
    && u.worker == Top && u.running && u.queue == s.queue[k..]
    && u.accepted == s.accepted && u.dropped == s.dropped && u.calls == s.calls
    && (if sends
        then && u.batch == [] && |u.done| == |s.done| + 1 && u.done[..|s.done|] == s.done
             && u.done[|s.done|].events == s.batch + s.queue[..k]
             && u.sent == s.sent + |s.batch| + k && u.batches == s.batches + 1
        else u.batch == s.batch + s.queue[..k] && u.done == s.done && u.sent == s.sent && u.batches == s.batches)
  }

  /** The state with the batch topped up. */
  function ToppedUp(s: State, config: Config): State
    requires |s.batch| <= config.batchSize
  {
    s.(batch := s.batch + s.queue[..Taken(s, config)], queue := s.queue[Taken(s, config)..], worker := Deciding)
  }

  lemma TopsUp(s: State, config: Config)
    requires s.worker.Top? && s.running && |s.batch| <= config.batchSize
    ensures Step(s, config, LoopTest) == s.(worker := Collecting)
    ensures Step(s.(worker := Collecting), config, Collect) == ToppedUp(s, config)
  {
  }

  lemma OneRound(s: State, config: Config, timedOut: bool)
    requires s.worker.Top? && s.running && |s.batch| <= config.batchSize
    ensures RoundOutcome(s, Run(s, config, Round(timedOut)), config, Sends(s, config, timedOut))
  {
    var t := ToppedUp(s, config);
    TopsUp(s, config);
    var o := Step(t, config, Decide(timedOut));
    Four(s, config, LoopTest, Collect, Decide(timedOut), Attempt(true), s.(worker := Collecting), t, o,
         Step(o, config, Attempt(true)));
    DecidesAndSends(s, t, config, timedOut);
  }

  lemma DecidesAndSends(s: State, t: State, config: Config, timedOut: bool)
    requires s.worker.Top? && s.running && |s.batch| <= config.batchSize && t == ToppedUp(s, config)
    ensures RoundOutcome(s, Step(Step(t, config, Decide(timedOut)), config, Attempt(true)), config, Sends(s, config, timedOut))
  {
  }

  /** In any reachable running state with the worker at the top of its loop, one turn tops the batch up
      from the front of the queue and delivers it if and only if that fills it, or the wait is over
      and the batch is not empty; otherwise it keeps the batch. */
  lemma RoundDeliversIff(config: Config, actions: seq<Action>, timedOut: bool)
    requires var s := Run(Initial, config, actions); s.worker.Top? && s.running
    ensures var s := Run(Initial, config, actions);
            && |s.batch| <= config.batchSize
            && RoundOutcome(s, Run(s, config, Round(timedOut)), config, Sends(s, config, timedOut))
            && (s.queue != [] && config.batchSize > 0 ==>
                (Sends(s, config, timedOut) <==> |s.batch| + |s.queue| >= config.batchSize || timedOut))
  {
    RunInv(config, actions);
    OneRound(Run(Initial, config, actions), config, timedOut);
  }

  // ---------- Everything is delivered ----------

  function Rounds(k: nat): seq<Action> {
    if k == 0 then [] else Rounds(k - 1) + Round(true)
  }

  lemma {:induction false} RunAppend(s: State, config: Config, actions: seq<Action>, more: seq<Action>)
    ensures Run(s, config, actions + more) == Run(Run(s, config, actions), config, more)
    decreases |more|
  {
    if more == [] {
      assert actions + more == actions;
    } else {
      var front, last := more[..|more| - 1], more[|more| - 1];
      assert more == front + [last] && actions + more == (actions + front) + [last];
      RunAppend(s, config, actions, front);
      Then(s, config, actions + front, last, Run(s, config, actions + front), Step(Run(s, config, actions + front), config, last));
      Then(Run(s, config, actions), config, front, last, Run(s, config, actions + front),
           Step(Run(s, config, actions + front), config, last));
    }
  }

  /** The messages not delivered yet. */
  function Undelivered(s: State): nat {
    |s.batch| + |s.queue|
  }

  /** After `k` turns: at most what exceeds `k` full batches is left. */
  ghost predicate Progress(s: State, u: State, config: Config, k: nat) {
    && u.worker == Top && u.running && |u.batch| <= config.batchSize
    && u.accepted == s.accepted
    && Undelivered(u) <= if Undelivered(s) <= k * config.batchSize then 0 else Undelivered(s) - k * config.batchSize
  }

  lemma NextRound(s: State, u: State, v: State, config: Config, k: nat)
    requires Progress(s, u, config, k) && config.batchSize > 0
    requires RoundOutcome(u, v, config, Sends(u, config, true))
    ensures Progress(s, v, config, k + 1)
  {
    assert (k + 1) * config.batchSize == k * config.batchSize + config.batchSize;
  }

  lemma {:induction false} RoundsProgress(s: State, config: Config, k: nat)
    requires s.worker.Top? && s.running && |s.batch| <= config.batchSize && config.batchSize > 0
    ensures Progress(s, Run(s, config, Rounds(k)), config, k)
    decreases k
  {
    if k == 0 {
    } else {
      RoundsProgress(s, config, k - 1);
      RoundFrom(s, Run(s, config, Rounds(k - 1)), config, k - 1);
      RunAppend(s, config, Rounds(k - 1), Round(true));
    }
  }

  lemma RoundFrom(s: State, u: State, config: Config, k: nat)
    requires Progress(s, u, config, k) && config.batchSize > 0
    ensures Progress(s, Run(u, config, Round(true)), config, k + 1)
  {
    OneRound(u, config, true);
    NextRound(s, u, Run(u, config, Round(true)), config, k);
  }

  /** From any reachable running state with the worker at the top of its loop, enough turns in which
      the wait ends deliver every message accepted so far, in order. */
  lemma EverythingIsDelivered(config: Config, actions: seq<Action>, k: nat)
    requires var s := Run(Initial, config, actions);
             s.worker.Top? && s.running && config.batchSize > 0 && Undelivered(s) <= k * config.batchSize
    ensures var u := Run(Initial, config, actions + Rounds(k));
            u.queue == [] && u.batch == [] && Flatten(u.done) == Run(Initial, config, actions).accepted
  {
    var s := Run(Initial, config, actions);
    RunInv(config, actions);
    RoundsProgress(s, config, k);
    RunAppend(Initial, config, actions, Rounds(k));
    RunInv(config, actions + Rounds(k));
    var u := Run(Initial, config, actions + Rounds(k));
    assert Flatten(u.done) + [] + [] == Flatten(u.done);
  }

  // ---------- Both ends of the queue ----------

  /** A message is dropped in a reachable state if and only if as many accepted ones as the queue may
      hold are neither delivered nor in the worker's batch; any other message is accepted. */
  lemma DroppedIffBehind(config: Config, actions: seq<Action>, event: Event)
    ensures var s := Run(Initial, config, actions);
            var u := Step(s, config, Log(event));
            if |s.accepted| >= |Flatten(s.done)| + |s.batch| + config.maxQueue
            then u == s.(calls := s.calls + 1, dropped := s.dropped + 1)
            else u.accepted == s.accepted + [event] && u.queue == s.queue + [event] && u.dropped == s.dropped
  {
    RunInv(config, actions);
  }

  /** A stopped worker at the top of its loop ends after delivering its batch; what waits in the queue
      then is never delivered. */
  lemma StoppedWorkerEnds(config: Config, actions: seq<Action>)
    requires var s := Run(Initial, config, actions); s.worker.Top? && !s.running
    ensures var s := Run(Initial, config, actions);
            var u := Run(s, config, [] + [LoopTest] + [Attempt(true)]);
            && u.worker.Ended? && u.queue == s.queue && u.batch == [] && Flatten(u.done) + s.queue == s.accepted
  {
    RunInv(config, actions);
    LastSend(Run(Initial, config, actions), config);
  }

  lemma LastSend(s: State, config: Config)
    requires s.worker.Top? && !s.running && Conserved(s)
    ensures var u := Run(s, config, [] + [LoopTest] + [Attempt(true)]);
            && u.worker.Ended? && u.queue == s.queue && u.batch == [] && Flatten(u.done) + s.queue == s.accepted
  {
    var next := if s.batch == [] then s.(worker := Ended) else FinishSend(StartSend(s, config, true), true);
    Then(s, config, [], LoopTest, s, LeaveLoop(s, config));
    Then(s, config, [] + [LoopTest], Attempt(true), LeaveLoop(s, config), next);
    Delivered(s, next, config);
  }

  lemma Delivered(s: State, next: State, config: Config)
    requires Conserved(s)
    requires next == if s.batch == [] then s.(worker := Ended) else FinishSend(StartSend(s, config, true), true)
    ensures next.worker.Ended? && next.queue == s.queue && next.batch == [] && Flatten(next.done) + s.queue == s.accepted
  {
    if s.batch == [] {
      assert Flatten(s.done) + [] == Flatten(s.done);
    } else {
      assert next.done[..|s.done|] == s.done;
    }
  }
}
