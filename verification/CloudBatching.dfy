// The batching queue of the cloud sinks: bounded queue, worker loop, retries with doubling delay.

module CloudBatching {
  type Event = string

  datatype Config = Config(batchSize: nat, maxRetries: nat, retryDelay: nat, maxQueue: nat)

  /** A finished batch with the retries it took and the time slept for it. */
  datatype Delivery = Delivery(events: seq<Event>, retries: nat, slept: nat)

  function Flatten(done: seq<Delivery>): seq<Event> {
    if done == [] then [] else Flatten(done[..|done| - 1]) + done[|done| - 1].events
  }

  function TotalRetries(done: seq<Delivery>): nat {
    if done == [] then 0 else TotalRetries(done[..|done| - 1]) + done[|done| - 1].retries
  }

  /** The delay before retry `k`, and the closed form of what all earlier ones add up to. */
  function Delay(first: nat, k: nat): nat {
    if k == 0 then first else 2 * Delay(first, k - 1)
  }

  function Pow2(k: nat): nat {
    if k == 0 then 1 else 2 * Pow2(k - 1)
  }

  lemma {:induction false} DelayClosedForm(first: nat, k: nat)
    ensures Delay(first, k) == first * Pow2(k)
    decreases k
  {
    if k == 0 {
    } else {
      DelayClosedForm(first, k - 1);
      assert first * (2 * Pow2(k - 1)) == 2 * (first * Pow2(k - 1));
    }
  }

  lemma {:induction false} DelayGrows(first: nat, k: nat, n: nat)
    requires k <= n
    ensures first <= Delay(first, k) <= Delay(first, n)
    decreases n
  {
    if k < n {
      DelayGrows(first, k, n - 1);
    } else if k > 0 {
      DelayGrows(first, k - 1, k - 1);
    }
  }

  /** The time slept over the first `k` retries. */
  function Slept(first: nat, k: nat): nat {
    DelayGrows(first, 0, k);
    Delay(first, k) - first
  }

  // ---------- The object ----------

  /** How many failures precede the first success. */
  function Failures(answers: seq<bool>): (k: nat)
    requires true in answers
    ensures k < |answers| && answers[k] && forall i :: 0 <= i < k ==> !answers[i]
  {
    if answers[0] then 0 else 1 + Failures(answers[1..])
  }

  class CloudWatchSink {
    const config: Config
    var queue: seq<Event>
    var messages_sent: nat
    var messages_failed: nat
    var messages_dropped: nat
    var batches_sent: nat
    var retries: nat

    /** The object's part of a state of the step system below. */
    ghost predicate Shows(s: State)
      reads this
    {
      && s.queue == queue && s.sent == messages_sent && s.failed == messages_failed
      && s.dropped == messages_dropped && s.batches == batches_sent && s.retries == retries
    }

    constructor (config: Config)
      ensures this.config == config && queue == [] && Shows(Initial)
      ensures messages_sent == messages_failed == messages_dropped == batches_sent == retries == 0
    {
      this.config := config;
      queue := [];
      messages_sent, messages_failed, messages_dropped, batches_sent, retries := 0, 0, 0, 0, 0;
    }

    method Log(event: Event)
      modifies this`queue, this`messages_dropped
      ensures old(|queue|) < config.maxQueue ==>
                queue == old(queue) + [event] && messages_dropped == old(messages_dropped)
      ensures old(|queue|) >= config.maxQueue ==>
                queue == old(queue) && messages_dropped == old(messages_dropped) + 1
      ensures forall s :: old(Shows(s)) ==> Shows(Step(s, config, Action.Log(event)))
    {
      if |queue| >= config.maxQueue {
        messages_dropped := messages_dropped + 1;
        return;
      }
      queue := queue + [event];
    }

    /** The worker's section under the queue mutex: fill the batch from the queue. */
    method Collect(batch: seq<Event>) returns (filled: seq<Event>)
      modifies this`queue
      ensures (filled, queue) == Filled(batch, old(queue), config.batchSize)
      ensures forall s :: old(Shows(s)) && s.worker.Collecting? && (s.running || s.queue != []) && s.batch == batch ==>
                Shows(Step(s, config, Action.Collect)) && Step(s, config, Action.Collect).batch == filled
    {
      filled := batch;
      while queue != [] && |filled| < config.batchSize
        invariant Filled(filled, queue, config.batchSize) == Filled(batch, old(queue), config.batchSize)
        decreases |queue|
      {
        FillOne(filled, queue, config.batchSize);
        filled := filled + [queue[0]];
        queue := queue[1..];
      }
      FillNone(filled, queue, config.batchSize);
      forall s | old(Shows(s)) && s.worker.Collecting? && (s.running || s.queue != []) && s.batch == batch
        ensures Shows(Step(s, config, Action.Collect)) && Step(s, config, Action.Collect).batch == filled
      {
        CollectStep(s, config);
      }
    }

    /** Sends until an attempt succeeds; `answers` are the outcomes the attempts meet. */
    method SendBatch(events: seq<Event>, answers: seq<bool>) returns (slept: nat)
      requires true in answers
      modifies this`messages_sent, this`messages_failed, this`batches_sent, this`retries
      ensures messages_sent == old(messages_sent) + |events| && messages_failed == old(messages_failed)
      ensures batches_sent == old(batches_sent) + 1
      ensures var counted := CountedRetries(config, Failures(answers));
              retries == old(retries) + counted && slept == Slept(config.retryDelay, counted)
    {
      var retry_count, delay, success, attempts := 0, config.retryDelay, false, 0;
      slept := 0;
      while retry_count <= config.maxRetries && !success
        invariant retry_count <= config.maxRetries
        invariant if success then attempts == Failures(answers) + 1 else attempts <= Failures(answers)
        invariant retry_count == if (attempts - if success then 1 else 0) <= config.maxRetries
                                 then attempts - if success then 1 else 0 else config.maxRetries
        invariant delay == Delay(config.retryDelay, retry_count) && slept == delay - config.retryDelay
        invariant retries == old(retries) + retry_count
        invariant messages_sent == old(messages_sent) && messages_failed == old(messages_failed)
        invariant batches_sent == old(batches_sent)
        decreases !success, |answers| - attempts
      {
        success := answers[attempts];
        attempts := attempts + 1;
        if !success && retry_count < config.maxRetries {
          slept := slept + delay;
          delay := delay * 2;
          retry_count := retry_count + 1;
          retries := retries + 1;
        }
      }
      batches_sent := batches_sent + 1;
      // The loop ends only by success, so the branch that counts failed messages is never taken.
      assert success;
      messages_sent := messages_sent + |events|;
    }
  }

  /** The batch topped up to its limit from the front of the queue. */
  function Filled(batch: seq<Event>, queue: seq<Event>, limit: nat): (seq<Event>, seq<Event>) {
    var room := if limit <= |batch| then 0 else limit - |batch|;
    var taken := if room <= |queue| then room else |queue|;
    (batch + queue[..taken], queue[taken..])
  }

  lemma FillOne(batch: seq<Event>, queue: seq<Event>, limit: nat)
    requires queue != [] && |batch| < limit
    ensures Filled(batch + [queue[0]], queue[1..], limit) == Filled(batch, queue, limit)
  {
    var (a, b) := Filled(batch, queue, limit);
    var (c, d) := Filled(batch + [queue[0]], queue[1..], limit);
    assert a == c && b == d;
  }

  lemma FillNone(batch: seq<Event>, queue: seq<Event>, limit: nat)
    requires queue == [] || |batch| >= limit
    ensures Filled(batch, queue, limit) == (batch, queue)
  {
    assert batch + queue[..0] == batch && queue[0..] == queue;
  }

  // ---------- All interleavings of producers and worker ----------

  /** Where the worker stands; `last` marks the send after the loop. */
  datatype Worker = Top | Collecting | Deciding | Sending(retry: nat, delay: nat, slept: nat, last: bool) | Ended

  /** `accepted`, `calls` and `done` record the past. */
  datatype State = State(
    queue: seq<Event>, running: bool, batch: seq<Event>, worker: Worker,
    sent: nat, failed: nat, dropped: nat, batches: nat, retries: nat,
    accepted: seq<Event>, calls: nat, done: seq<Delivery>)

  datatype Action = Log(event: Event) | Stop | LoopTest | Collect | Decide(timedOut: bool) | Attempt(success: bool)

  const Initial: State := State([], true, [], Top, 0, 0, 0, 0, 0, [], 0, [])

  function StartSend(s: State, config: Config, last: bool): State {
    s.(worker := Sending(0, config.retryDelay, 0, last))
  }

  function LeaveLoop(s: State, config: Config): State {
    if s.batch != [] then StartSend(s, config, true) else s.(worker := Ended)
  }

  function FinishSend(s: State, success: bool): State
    requires s.worker.Sending?
  {
    s.(worker := if s.worker.last then Ended else Top,
       batch := [], batches := s.batches + 1,
       sent := if success then s.sent + |s.batch| else s.sent,
       failed := if success then s.failed else s.failed + |s.batch|,
       done := s.done + [Delivery(s.batch, s.worker.retry, s.worker.slept)])
  }

  /** An action that is not enabled changes nothing. */
  function Step(s: State, config: Config, a: Action): State {
    match a
    case Log(event) =>
      if |s.queue| >= config.maxQueue then s.(calls := s.calls + 1, dropped := s.dropped + 1)
      else s.(calls := s.calls + 1, queue := s.queue + [event], accepted := s.accepted + [event])
    case Stop => s.(running := false)
    case LoopTest =>
      if !s.worker.Top? then s
      else if s.running then s.(worker := Collecting)
      else LeaveLoop(s, config)
    case Collect =>
      if !s.worker.Collecting? then s
      else if !s.running && s.queue == [] then LeaveLoop(s, config)
      else
        var (batch, queue) := Filled(s.batch, s.queue, config.batchSize);
        s.(batch := batch, queue := queue, worker := Deciding)
    case Decide(timedOut) =>
      if !s.worker.Deciding? then s
      else if s.batch != [] && (|s.batch| >= config.batchSize || timedOut) then StartSend(s, config, false)
      else s.(worker := Top)
    case Attempt(success) =>
      if !s.worker.Sending? then s
      else if s.worker.retry > config.maxRetries then FinishSend(s, false)
      else if success then FinishSend(s, true)
      else if s.worker.retry < config.maxRetries then
        var w := s.worker;
        s.(worker := w.(retry := w.retry + 1, delay := w.delay * 2, slept := w.slept + w.delay),
           retries := s.retries + 1)
      else s
  }

  function Run(s: State, config: Config, actions: seq<Action>): State
    decreases |actions|
  {
    if actions == [] then s else Step(Run(s, config, actions[..|actions| - 1]), config, actions[|actions| - 1])
  }

  // ---------- The invariant ----------

  ghost predicate GoodDelivery(d: Delivery, config: Config) {
    && 0 < |d.events| <= config.batchSize
    && d.retries <= config.maxRetries
    && d.slept == Slept(config.retryDelay, d.retries)
  }

  ghost predicate Conserved(s: State) {
    && Flatten(s.done) + s.batch + s.queue == s.accepted
    && |s.accepted| + s.dropped == s.calls
  }

  ghost predicate Bounded(s: State, config: Config) {
    && |s.queue| <= config.maxQueue && |s.batch| <= config.batchSize
    && (forall i :: 0 <= i < |s.done| ==> GoodDelivery(s.done[i], config))
    && (s.worker.Ended? ==> s.batch == [] && !s.running)
  }

  ghost predicate Counted(s: State) {
    && s.failed == 0 && s.sent == |Flatten(s.done)| && s.batches == |s.done|
    && s.retries == TotalRetries(s.done) + if s.worker.Sending? then s.worker.retry else 0
  }

  ghost predicate SendInv(s: State, config: Config) {
    s.worker.Sending? ==>
      && s.batch != [] && s.worker.retry <= config.maxRetries
      && s.worker.delay == Delay(config.retryDelay, s.worker.retry)
      && s.worker.slept == Slept(config.retryDelay, s.worker.retry)
      && (s.worker.last ==> !s.running)
  }

  ghost predicate Inv(s: State, config: Config) {
    Conserved(s) && Bounded(s, config) && Counted(s) && SendInv(s, config)
  }

  lemma DoneGrows(done: seq<Delivery>, d: Delivery)
    ensures Flatten(done + [d]) == Flatten(done) + d.events
    ensures TotalRetries(done + [d]) == TotalRetries(done) + d.retries
  {
    assert (done + [d])[..|done|] == done;
  }

  lemma AttemptInv(s: State, config: Config, success: bool)
    requires Inv(s, config)
    ensures Inv(Step(s, config, Attempt(success)), config)
  {
    if s.worker.Sending? && success {
      var d := Delivery(s.batch, s.worker.retry, s.worker.slept);
      DoneGrows(s.done, d);
      assert Flatten(s.done) + s.batch + [] + s.queue == Flatten(s.done) + s.batch + s.queue;
    }
  }

  lemma CollectStep(s: State, config: Config)
    requires s.worker.Collecting? && (s.running || s.queue != [])
    ensures var (batch, queue) := Filled(s.batch, s.queue, config.batchSize);
            Step(s, config, Collect) == s.(batch := batch, queue := queue, worker := Deciding)
  {
  }

  lemma CollectInv(s: State, config: Config)
    requires Inv(s, config)
    ensures Inv(Step(s, config, Collect), config)
  {
    if s.worker.Collecting? && (s.running || s.queue != []) {
      var (batch, queue) := Filled(s.batch, s.queue, config.batchSize);
      FilledKeeps(Flatten(s.done), s.batch, s.queue, config.batchSize);
      CollectStep(s, config);
    }
  }

  lemma FilledKeeps(front: seq<Event>, batch: seq<Event>, queue: seq<Event>, limit: nat)
    ensures var (filled, left) := Filled(batch, queue, limit);
            front + filled + left == front + batch + queue
            && |left| <= |queue| && (|batch| <= limit ==> |filled| <= limit)
  {
    var (filled, left) := Filled(batch, queue, limit);
    assert filled + left == batch + queue;
    assert front + filled + left == front + (filled + left);
    assert front + batch + queue == front + (batch + queue);
  }

  lemma StepInv(s: State, config: Config, a: Action)
    requires Inv(s, config)
    ensures Inv(Step(s, config, a), config)
  {
    match a
    case Log(event) =>
      assert Flatten(s.done) + s.batch + (s.queue + [event]) == Flatten(s.done) + s.batch + s.queue + [event];
    case Collect =>
      CollectInv(s, config);
    case Attempt(success) =>
      AttemptInv(s, config, success);
    case _ =>
  }

  lemma {:induction false} RunInv(config: Config, actions: seq<Action>)
    ensures Inv(Run(Initial, config, actions), config)
    decreases |actions|
  {
    if actions == [] {
    } else {
      RunInv(config, actions[..|actions| - 1]);
      StepInv(Run(Initial, config, actions[..|actions| - 1]), config, actions[|actions| - 1]);
    }
  }

  // ---------- Results ----------

  /** In every reachable state the finished batches, the worker's batch and the queue spell the
      accepted messages in order, and accepted and dropped messages are all the calls. */
  lemma OrderAndConservation(config: Config, actions: seq<Action>)
    ensures var s := Run(Initial, config, actions);
            && Flatten(s.done) + s.batch + s.queue == s.accepted
            && |s.accepted| + s.dropped == s.calls
            && |s.queue| <= config.maxQueue
            && s.sent + s.failed == |Flatten(s.done)|
  {
    RunInv(config, actions);
  }

  /** Every finished batch is non-empty and within the limit, took at most max_retries counted
      retries, and slept retry_delay * (2^retries - 1). */
  lemma BatchesAndBackoffBounded(config: Config, actions: seq<Action>, i: nat)
    requires i < |Run(Initial, config, actions).done|
    ensures var d := Run(Initial, config, actions).done[i];
            && 0 < |d.events| <= config.batchSize && d.retries <= config.maxRetries
            && d.slept == config.retryDelay * (Pow2(d.retries) - 1)
            && d.slept <= config.retryDelay * (Pow2(config.maxRetries) - 1)
  {
    RunInv(config, actions);
    var d := Run(Initial, config, actions).done[i];
    assert GoodDelivery(d, config);
    DelayClosedForm(config.retryDelay, d.retries);
    DelayClosedForm(config.retryDelay, config.maxRetries);
    DelayGrows(config.retryDelay, d.retries, config.maxRetries);
    Distribute(config.retryDelay, Pow2(d.retries));
    Distribute(config.retryDelay, Pow2(config.maxRetries));
  }

  lemma Distribute(x: nat, y: nat)
    ensures x * (y - 1) == x * y - x
  {
  }

  /** No message is ever counted as failed: a batch leaves the send loop only by success. */
  lemma NothingIsEverFailed(config: Config, actions: seq<Action>)
    ensures Run(Initial, config, actions).failed == 0
  {
    RunInv(config, actions);
  }

  function Attempts(answers: seq<bool>): seq<Action> {
    seq(|answers|, i requires 0 <= i < |answers| => Attempt(answers[i]))
  }

  /** What attempts with these answers have made of a send in `s`. */
  ghost predicate SendOutcome(s: State, t: State, config: Config, answers: seq<bool>) {
    && SendInv(t, config)
    && if true in answers then !t.worker.Sending? && |t.done| == |s.done| + 1
       else t.worker.Sending? && t.done == s.done && t.batch == s.batch
  }

  lemma AttemptOutcome(s: State, t: State, config: Config, answers: seq<bool>, answer: bool)
    requires SendOutcome(s, t, config, answers)
    ensures SendOutcome(s, Step(t, config, Attempt(answer)), config, answers + [answer])
  {
    assert true in answers + [answer] <==> true in answers || answer;
  }

  lemma RunAttempts(s: State, config: Config, answers: seq<bool>, answer: bool)
    ensures Run(s, config, Attempts(answers + [answer])) == Step(Run(s, config, Attempts(answers)), config, Attempt(answer))
  {
    assert Attempts(answers + [answer]) == Attempts(answers) + [Attempt(answer)];
    assert Attempts(answers + [answer])[..|answers|] == Attempts(answers);
  }

  /** The batch in hand completes exactly if some attempt succeeds: retries do not give up. */
  lemma {:induction false} SendEndsIffSomeSuccess(s: State, config: Config, answers: seq<bool>)
    requires SendInv(s, config) && s.worker.Sending?
    ensures SendOutcome(s, Run(s, config, Attempts(answers)), config, answers)
    decreases |answers|
  {
    if answers == [] {
    } else {
      var before, answer := answers[..|answers| - 1], answers[|answers| - 1];
      assert answers == before + [answer];
      SendEndsIffSomeSuccess(s, config, before);
      AttemptOutcome(s, Run(s, config, Attempts(before)), config, before, answer);
      RunAttempts(s, config, before, answer);
    }
  }

  /** How many retries are counted when this many attempts fail. */
  function CountedRetries(config: Config, failures: nat): nat {
    if failures <= config.maxRetries then failures else config.maxRetries
  }

  lemma {:induction false} FailedAttempts(s: State, config: Config, answers: seq<bool>)
    requires s.worker.Sending? && s.worker == Sending(0, config.retryDelay, 0, s.worker.last) && true !in answers
    ensures var k := CountedRetries(config, |answers|);
            Run(s, config, Attempts(answers))
            == s.(worker := Sending(k, Delay(config.retryDelay, k), Slept(config.retryDelay, k), s.worker.last),
                  retries := s.retries + k)
    decreases |answers|
  {
    if answers == [] {
    } else {
      var before := answers[..|answers| - 1];
      assert answers[|answers| - 1] in answers;
      FailedAttempts(s, config, before);
      assert Attempts(answers)[..|answers| - 1] == Attempts(before);
    }
  }

  /** The attempts of the step system deliver the batch with the counts the method reports. */
  lemma AttemptsDeliver(s: State, config: Config, answers: seq<bool>)
    requires s.worker.Sending? && s.worker == Sending(0, config.retryDelay, 0, s.worker.last) && true in answers
    ensures var k := CountedRetries(config, Failures(answers));
            var t := Run(s, config, Attempts(answers[..Failures(answers) + 1]));
            && t.sent == s.sent + |s.batch| && t.failed == s.failed && t.batches == s.batches + 1
            && t.retries == s.retries + k && t.batch == [] && t.queue == s.queue && t.dropped == s.dropped
            && t.done == s.done + [Delivery(s.batch, k, Slept(config.retryDelay, k))]
  {
    var n := Failures(answers);
    var tried := answers[..n + 1];
    assert tried[..n] == answers[..n] && tried[n];
    FailedAttempts(s, config, answers[..n]);
    assert Attempts(tried)[..n] == Attempts(answers[..n]);
  }

  /** When the worker has ended, what it did not deliver is exactly what is left in the queue. */
  lemma UndeliveredAtEnd(config: Config, actions: seq<Action>)
    ensures var s := Run(Initial, config, actions);
            s.worker.Ended? ==> Flatten(s.done) + s.queue == s.accepted && s.sent + |s.queue| + s.dropped == s.calls
  {
    RunInv(config, actions);
    var s := Run(Initial, config, actions);
    if s.worker.Ended? {
      assert Flatten(s.done) + [] == Flatten(s.done);
    }
  }

  // ---------- What a stop loses ----------

  predicate WorkerOnly(actions: seq<Action>) {
    forall i :: 0 <= i < |actions| ==> !actions[i].Log? && !actions[i].Stop?
  }

  /** However the worker goes on, it has emptied the queue when it ends. */
  ghost predicate LosesNothing(s: State, config: Config) {
    forall more :: WorkerOnly(more) && Run(s, config, more).worker.Ended? ==> Run(s, config, more).queue == []
  }

  /** The queue is empty, or the worker is about to take all of it. */
  predicate Drains(s: State, config: Config) {
    s.queue == [] || (s.worker.Collecting? && |s.batch| + |s.queue| <= config.batchSize)
  }

  lemma DrainsStep(s: State, config: Config, a: Action)
    requires !s.running && Drains(s, config) && !a.Log? && !a.Stop?
    ensures !Step(s, config, a).running && Drains(Step(s, config, a), config)
  {
  }

  lemma {:induction false} DrainsRun(s: State, config: Config, more: seq<Action>)
    requires !s.running && Drains(s, config) && WorkerOnly(more)
    ensures !Run(s, config, more).running && Drains(Run(s, config, more), config)
    decreases |more|
  {
    if more == [] {
    } else {
      var front, last := more[..|more| - 1], more[|more| - 1];
      DrainsRun(s, config, front);
      DrainsStep(Run(s, config, front), config, last);
    }
  }

  /** The worker's next step on its shortest way to the end. */
  function Onward(s: State): Action {
    match s.worker
    case Top => LoopTest
    case Collecting => Collect
    case Deciding => Decide(true)
    case Sending(_, _, _, _) => Attempt(true)
    case Ended => LoopTest
  }

  function StepsLeft(s: State): nat {
    match s.worker
    case Collecting => 5
    case Deciding => 4
    case Sending(_, _, _, last) => if last then 1 else 3
    case Top => 2
    case Ended => 0
  }

  lemma OnwardStep(s: State, config: Config)
    requires !s.running && !s.worker.Ended?
    ensures var u := Step(s, config, Onward(s));
            && !u.running && StepsLeft(u) < StepsLeft(s)
            && (s.queue != [] && !Drains(s, config) ==> u.queue != [] && !Drains(u, config))
  {
  }

  /** The shortest way from a stop to the worker's end: every test is timed out, every attempt succeeds. */
  function WayOut(s: State, config: Config): seq<Action>
    requires !s.running
    decreases StepsLeft(s)
  {
    if s.worker.Ended? then []
    else
      OnwardStep(s, config);
      [Onward(s)] + WayOut(Step(s, config, Onward(s)), config)
  }

  lemma {:induction false} RunFirst(s: State, config: Config, a: Action, more: seq<Action>)
    ensures Run(s, config, [a] + more) == Run(Step(s, config, a), config, more)
    decreases |more|
  {
    if more == [] {
      assert [a] + more == [a] && [a][..0] == [];
      assert Run(s, config, [a]) == Step(Run(s, config, []), config, a);
    } else {
      var front, last := more[..|more| - 1], more[|more| - 1];
      assert ([a] + more)[..|more|] == [a] + front;
      RunFirst(s, config, a, front);
    }
  }

  lemma {:induction false} WayOutEnds(s: State, config: Config)
    requires !s.running
    ensures WorkerOnly(WayOut(s, config))
    ensures var u := Run(s, config, WayOut(s, config));
            u.worker.Ended? && (s.queue != [] && !Drains(s, config) ==> u.queue != [])
    decreases StepsLeft(s)
  {
    if s.worker.Ended? {
    } else {
      var u := Step(s, config, Onward(s));
      OnwardStep(s, config);
      WayOutEnds(u, config);
      RunFirst(s, config, Onward(s), WayOut(u, config));
    }
  }

  /** A stop, in any reachable running state, can lose none of the messages waiting then if and only
      if none waits or the worker is about to take them all into its batch. */
  lemma StopLosesNothingIff(config: Config, actions: seq<Action>)
    requires Run(Initial, config, actions).running
    ensures var s := Run(Initial, config, actions);
            LosesNothing(Step(s, config, Stop), config)
            <==> s.queue == [] || (s.worker.Collecting? && |s.batch| + |s.queue| <= config.batchSize)
  {
    var u := Step(Run(Initial, config, actions), config, Stop);
    if Drains(u, config) {
      forall more | WorkerOnly(more) && Run(u, config, more).worker.Ended?
        ensures Run(u, config, more).queue == []
      {
        DrainsRun(u, config, more);
      }
    } else {
      WayOutEnds(u, config);
    }
  }

  /** The shortest case: one message, and a worker that finds the stop before the message. */
  lemma StoppingMayLeaveMessages(event: Event)
    ensures var config := Config(1, 0, 0, 1);
            var s := Run(Initial, config, [Log(event), Stop, LoopTest]);
            s.worker.Ended? && s.queue == [event] && s.done == []
  {
    var config := Config(1, 0, 0, 1);
    var s := Step(Step(Initial, config, Log(event)), config, Stop);
    assert !Drains(s, config);
    WayOutEnds(s, config);
    assert WayOut(s, config) == [LoopTest] + [] == [LoopTest];
    RunFirst(Initial, config, Log(event), [Stop, LoopTest]);
    RunFirst(Step(Initial, config, Log(event)), config, Stop, [LoopTest]);
    assert [Log(event), Stop, LoopTest] == [Log(event)] + [Stop, LoopTest];
    assert [Stop, LoopTest] == [Stop] + [LoopTest];
  }
}
