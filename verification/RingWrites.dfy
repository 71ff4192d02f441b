// What becomes of the chunks written to the ring: one undisturbed write as a whole run, and the fate
// of every chunk in every interleaving.

module RingWrites {
  import opened Modular
  import opened RingProtocol

  lemma {:induction false} RunAppend(s: State, actions: seq<Action>, more: seq<Action>)
    ensures Run(s, actions + more) == Run(Run(s, actions), more)
    decreases |more|
  {
    if more == [] {
      assert actions + more == actions;
    } else {
      var front, last := more[..|more| - 1], more[|more| - 1];
      assert more == front + [last] && actions + more == (actions + front) + [last];
      RunAppend(s, actions, front);
      RunLast(s, actions + front, last);
      RunLast(Run(s, actions), front, last);
    }
  }

  lemma Onward(s: State, front: seq<Action>, more: seq<Action>, mid: State, next: State)
    requires Run(s, front) == mid && Run(mid, more) == next
    ensures Run(s, front + more) == next
  {
    RunAppend(s, front, more);
  }

  lemma Then(s: State, front: seq<Action>, a: Action, mid: State, next: State)
    requires Run(s, front) == mid && Step(mid, a) == next
    ensures Run(s, front + [a]) == next
  {
    RunLast(s, front, a);
  }

  lemma Three(s: State, a: Action, b: Action, c: Action, m: State, n: State, next: State)
    requires Step(s, a) == m && Step(m, b) == n && Step(n, c) == next
    ensures Run(s, [] + [a] + [b] + [c]) == next
  {
    Then(s, [], a, s, m);
    Then(s, [] + [a], b, m, n);
    Then(s, [] + [a] + [b], c, n, next);
  }

  // ---------- One undisturbed write ----------

  function FirstLook(t: nat, data: string): seq<Action> {
    [] + [Begin(t, data)] + [LoadWrite(t)] + [LoadRead(t)]
  }

  /** The second look, and the exchange. */
  function SecondLook(t: nat): seq<Action> {
    [] + [ReloadWrite(t)] + [ReloadRead(t)] + [Exchange(t, false)]
  }

  function CopySteps(t: nat, n: nat): seq<Action> {
    if n == 0 then [] else CopySteps(t, n - 1) + [Copy(t)]
  }

  predicate Fits(s: State, data: string) {
    s.write + |data| <= s.read + s.capacity
  }

  function WholeFlush(n: nat): seq<Action> {
    FlushActions(n) + [FlushEnd]
  }

  /** The steps up to the exchange: a chunk that does not fit at first makes the writer flush and look again. */
  function Decision(s: State, t: nat, data: string): seq<Action>
    requires s.read <= s.write
  {
    if Fits(s, data) then FirstLook(t, data) + [Exchange(t, false)]
    else (FirstLook(t, data) + WholeFlush(s.write - s.read)) + SecondLook(t)
  }

  /** One write by `t` with nobody else acting. */
  function WriteCall(s: State, t: nat, data: string): seq<Action>
    requires s.read <= s.write
  {
    Decision(s, t, data) + CopySteps(t, |data|)
  }

  lemma FirstLookRuns(s: State, t: nat, data: string)
    requires t !in s.writers && data != ""
    ensures Run(s, FirstLook(t, data))
         == At(s, t, if Fits(s, data) then Ready(data, s.write, s.read) else Crowded(data))
  {
    var next := At(s, t, if Fits(s, data) then Ready(data, s.write, s.read) else Crowded(data));
    FirstLookSteps(s, t, data);
    Three(s, Begin(t, data), LoadWrite(t), LoadRead(t), At(s, t, AtLoad(data)), At(s, t, GotWrite(data, s.write)), next);
  }

  lemma FirstLookSteps(s: State, t: nat, data: string)
    requires t !in s.writers && data != ""
    ensures Step(s, Begin(t, data)) == At(s, t, AtLoad(data))
    ensures Step(At(s, t, AtLoad(data)), LoadWrite(t)) == At(s, t, GotWrite(data, s.write))
    ensures Step(At(s, t, GotWrite(data, s.write)), LoadRead(t))
         == At(s, t, if Fits(s, data) then Ready(data, s.write, s.read) else Crowded(data))
  {
    Overwritten(s, t, AtLoad(data), GotWrite(data, s.write));
    Overwritten(s, t, GotWrite(data, s.write), if Fits(s, data) then Ready(data, s.write, s.read) else Crowded(data));
  }

  lemma Overwritten(s: State, t: nat, v: Writer, w: Writer)
    ensures At(At(s, t, v), t, w) == At(s, t, w)
  {
    assert s.writers[t := v][t := w] == s.writers[t := w];
  }

  lemma FlushRuns(s: State)
    requires Outstanding(s) && s.flusher.Idle?
    ensures Run(s, WholeFlush(s.write - s.read)) == Flushed(s)
  {
    var mid := FlushedIsLast(s);
    var front := ActionsRun(s, s.write - s.read);
    FlushEnds(s, front, mid, Flushed(s));
  }

  lemma FlushEnds(s: State, front: seq<Action>, mid: State, next: State)
    requires Run(s, front) == mid && FlushStep(mid, FlushEnd) == next
    ensures Run(s, front + [FlushEnd]) == next
  {
    RunFlushLast(s, front, FlushEnd);
  }

  lemma FlushedIsLast(s: State) returns (mid: State)
    requires Outstanding(s)
    ensures mid == FlushRun(s, s.write - s.read) && FlushStep(mid, FlushEnd) == Flushed(s)
  {
    mid := FlushRun(s, s.write - s.read);
  }

  lemma ActionsRun(s: State, n: nat) returns (front: seq<Action>)
    ensures WholeFlush(n) == front + [FlushEnd] && Run(s, front) == FlushRun(s, n)
  {
    FlushIsRun(s, n);
    front := FlushActions(n);
  }

  lemma ExchangeRuns(s: State, t: nat, data: string)
    requires Fits(s, data)
    ensures Step(At(s, t, Ready(data, s.write, s.read)), Exchange(t, false)) == Reserve(s, t, data, s.write)
  {
    Overwritten(s, t, Ready(data, s.write, s.read), Writer.Copying(data, s.write, 0));
  }

  /** The second look finds the ring as the flush left it, empty. */
  lemma SecondLookRuns(s: State, t: nat, data: string)
    requires s.read == s.write && t !in s.writers
    ensures Run(At(s, t, Crowded(data)), SecondLook(t))
         == if |data| <= s.capacity then Reserve(s, t, data, s.write) else s.(dropped := s.dropped + 1)
  {
    var looked := At(s, t, GotWriteAgain(data, s.write));
    Overwritten(s, t, Crowded(data), GotWriteAgain(data, s.write));
    if |data| <= s.capacity {
      Overwritten(s, t, GotWriteAgain(data, s.write), Ready(data, s.write, s.read));
      ExchangeRuns(s, t, data);
      Three(At(s, t, Crowded(data)), ReloadWrite(t), ReloadRead(t), Exchange(t, false),
            looked, At(s, t, Ready(data, s.write, s.read)), Reserve(s, t, data, s.write));
    } else {
      var dropped := s.(dropped := s.dropped + 1);
      assert looked.writers - {t} == s.writers;
      Three(At(s, t, Crowded(data)), ReloadWrite(t), ReloadRead(t), Exchange(t, false), looked, dropped, dropped);
    }
  }

  // ---------- The copy ----------

  /** `u` is `s` in all but cells and writer `t`, and `k` bytes of its chunk stand in their cells. */
  ghost predicate Copied(s: State, u: State, t: nat, data: string, w: nat, k: nat) {
    && u == s.(cells := u.cells, writers := u.writers)
    && u.writers - {t} == s.writers - {t}
    && |u.cells| == |s.cells| == s.capacity > 0 && k <= |data|
    && (if k < |data| then t in u.writers && u.writers[t] == Writer.Copying(data, w, k) else t !in u.writers)
    && forall j :: 0 <= j < k ==> u.cells[(w + j) % s.capacity] == data[j]
  }

  lemma CopyOne(s: State, u: State, t: nat, data: string, w: nat, k: nat)
    requires Copied(s, u, t, data, w, k) && k < |data| <= s.capacity
    ensures Copied(s, Step(u, Copy(t)), t, data, w, k + 1)
  {
    var v := Step(u, Copy(t));
    assert v == CopyByte(u, t, data, w, k);
    forall j | 0 <= j < k + 1
      ensures v.cells[(w + j) % s.capacity] == data[j]
    {
      if j < k {
        DistinctResidues(w + j, w + k, s.capacity);
      }
    }
    assert v.writers - {t} == u.writers - {t};
  }

  lemma {:induction false} CopyRuns(s: State, t: nat, data: string, w: nat, k: nat)
    requires Copied(s, s, t, data, w, 0) && k <= |data| <= s.capacity && data != ""
    ensures Copied(s, Run(s, CopySteps(t, k)), t, data, w, k)
    decreases k
  {
    if k == 0 {
    } else {
      CopyRuns(s, t, data, w, k - 1);
      CopyOne(s, Run(s, CopySteps(t, k - 1)), t, data, w, k - 1);
      RunLast(s, CopySteps(t, k - 1), Copy(t));
    }
  }

  lemma {:induction false} NothingToCopy(s: State, t: nat, k: nat)
    requires t !in s.writers
    ensures Run(s, CopySteps(t, k)) == s
    decreases k
  {
    if k == 0 {
    } else {
      NothingToCopy(s, t, k - 1);
      NoCopy(s, t);
      Then(s, CopySteps(t, k - 1), Copy(t), s, s);
    }
  }

  lemma NoCopy(s: State, t: nat)
    requires t !in s.writers
    ensures Step(s, Copy(t)) == s
  {
  }

  // ---------- The whole write ----------

  /** The state once the writer has reserved or given up: after a flush if the chunk did not fit. */
  ghost function Decided(s: State, t: nat, data: string): State
    requires s.read <= s.write
  {
    if Fits(s, data) then Reserve(s, t, data, s.write)
    else if |data| <= s.capacity then Reserve(Flushed(s), t, data, s.write)
    else Flushed(s).(dropped := s.dropped + 1)
  }

  lemma DecisionRuns(s: State, t: nat, data: string) returns (decision: seq<Action>)
    requires Outstanding(s) && s.flusher.Idle? && t !in s.writers && data != ""
    ensures decision == Decision(s, t, data) && Run(s, decision) == Decided(s, t, data)
  {
    if Fits(s, data) {
      decision := FittingRuns(s, t, data);
    } else {
      decision := CrowdedRuns(s, t, data);
    }
  }

  lemma FittingRuns(s: State, t: nat, data: string) returns (decision: seq<Action>)
    requires t !in s.writers && data != "" && Fits(s, data)
    ensures decision == FirstLook(t, data) + [Exchange(t, false)]
    ensures Run(s, decision) == Reserve(s, t, data, s.write)
  {
    FirstLookRuns(s, t, data);
    ExchangeRuns(s, t, data);
    decision := FirstLook(t, data) + [Exchange(t, false)];
    Then(s, FirstLook(t, data), Exchange(t, false), At(s, t, Ready(data, s.write, s.read)), Reserve(s, t, data, s.write));
  }

  lemma FlushedCrowded(s: State, t: nat, data: string) returns (front: seq<Action>)
    requires Outstanding(s) && s.flusher.Idle? && t !in s.writers && data != "" && !Fits(s, data)
    ensures front == FirstLook(t, data) + WholeFlush(s.write - s.read)
    ensures Run(s, front) == At(Flushed(s), t, Crowded(data))
  {
    var crowded := At(s, t, Crowded(data));
    FirstLookRuns(s, t, data);
    FlushRuns(crowded);
    FlushIgnoresWriter(s, t, data);
    front := FirstLook(t, data) + WholeFlush(s.write - s.read);
    Onward(s, FirstLook(t, data), WholeFlush(s.write - s.read), crowded, At(Flushed(s), t, Crowded(data)));
  }

  lemma CrowdedRuns(s: State, t: nat, data: string) returns (decision: seq<Action>)
    requires Outstanding(s) && s.flusher.Idle? && t !in s.writers && data != "" && !Fits(s, data)
    ensures decision == (FirstLook(t, data) + WholeFlush(s.write - s.read)) + SecondLook(t)
    ensures Run(s, decision) == Decided(s, t, data)
  {
    var front := FlushedCrowded(s, t, data);
    FlushedIs(s);
    SecondLookRuns(Flushed(s), t, data);
    decision := front + SecondLook(t);
    Onward(s, front, SecondLook(t), At(Flushed(s), t, Crowded(data)), Decided(s, t, data));
  }

  lemma FlushIgnoresWriter(s: State, t: nat, data: string)
    requires Outstanding(s) && s.flusher.Idle? && t !in s.writers
    ensures Flushed(At(s, t, Crowded(data))) == At(Flushed(s), t, Crowded(data))
  {
    var u := At(s, t, Crowded(data));
    FlushedIs(s);
    FlushedIs(u);
    assert forall x :: x in s.writers ==> u.writers[x] == s.writers[x];
    assert CopyInProgress(u) <==> CopyInProgress(s);
  }

  /** From `s` to `u` the chunk was reserved next and put in its place, if it fits the ring at all;
      otherwise one drop was counted and nothing reserved. */
  ghost predicate WriteOutcome(s: State, u: State, data: string) {
    if |data| <= s.capacity
    then && u.reserved == s.reserved + [Reservation(s.write, data)] && u.write == s.write + |data|
         && u.dropped == s.dropped && |u.cells| == s.capacity
         && forall j :: 0 <= j < |data| ==> u.cells[(s.write + j) % s.capacity] == data[j]
    else u.reserved == s.reserved && u.write == s.write && u.dropped == s.dropped + 1
  }

  /** In any reachable state without a flush under way a write that nobody disturbs reserves the next
      bytes and puts its chunk there if and only if the chunk fits the ring at all; otherwise it counts
      one drop and leaves the reservations alone. */
  lemma WriteCallSucceedsIff(garbage: string, actions: seq<Action>, t: nat, data: string)
    requires var s := Run(Initial(|garbage|, garbage), actions); s.flusher.Idle? && t !in s.writers && data != ""
    ensures var s := Run(Initial(|garbage|, garbage), actions);
            && s.read <= s.write && s.capacity == |garbage|
            && var u := Run(s, WriteCall(s, t, data));
               && t !in u.writers && WriteOutcome(s, u, data)
               && (u.dropped == s.dropped <==> |data| <= |garbage|)
  {
    RunInv(garbage, actions);
    RunCapacity(garbage, actions);
    WriteCallOutcome(Run(Initial(|garbage|, garbage), actions), t, data);
  }

  lemma WriteCallOutcome(s: State, t: nat, data: string)
    requires Outstanding(s) && s.flusher.Idle? && t !in s.writers && data != ""
    ensures var u := Run(s, WriteCall(s, t, data)); t !in u.writers && WriteOutcome(s, u, data)
  {
    var decision := DecisionRuns(s, t, data);
    RunAppend(s, decision, CopySteps(t, |data|));
    CopiesFinish(s, t, data);
  }

  lemma CopiesFinish(s: State, t: nat, data: string)
    requires Outstanding(s) && s.flusher.Idle? && t !in s.writers && data != ""
    ensures var u := Run(Decided(s, t, data), CopySteps(t, |data|)); t !in u.writers && WriteOutcome(s, u, data)
  {
    var d := Decided(s, t, data);
    DecidedIs(s, t, data);
    if |data| <= s.capacity {
      CopyRuns(d, t, data, s.write, |data|);
      CopiedOutcome(s, d, Run(d, CopySteps(t, |data|)), t, data);
    } else {
      NothingToCopy(d, t, |data|);
    }
  }

  /** What the decision settles. */
  lemma DecidedIs(s: State, t: nat, data: string)
    requires Outstanding(s) && s.flusher.Idle? && t !in s.writers && data != ""
    ensures var d := Decided(s, t, data);
            if |data| <= s.capacity
            then && Copied(d, d, t, data, s.write, 0) && d.capacity == s.capacity && d.dropped == s.dropped
                 && d.reserved == s.reserved + [Reservation(s.write, data)] && d.write == s.write + |data|
            else t !in d.writers && WriteOutcome(s, d, data)
  {
    FlushedIs(s);
  }

  lemma CopiedOutcome(s: State, d: State, u: State, t: nat, data: string)
    requires |data| <= s.capacity == d.capacity && Copied(d, u, t, data, s.write, |data|)
    requires d.reserved == s.reserved + [Reservation(s.write, data)] && d.write == s.write + |data| && d.dropped == s.dropped
    ensures t !in u.writers && WriteOutcome(s, u, data)
  {
  }

  // ---------- After a failed exchange ----------

  lemma WriteCallBegins(s: State, t: nat, data: string) returns (rest: seq<Action>)
    requires s.read <= s.write
    ensures WriteCall(s, t, data) == [Begin(t, data)] + rest
  {
    var call := WriteCall(s, t, data);
    assert Decision(s, t, data)[0] == FirstLook(t, data)[0] == Begin(t, data);
    rest := call[1..];
  }

  lemma SameFromThere(s: State, u: State, first: Action, rest: seq<Action>)
    requires Step(s, first) == Step(u, first)
    ensures Run(s, [first] + rest) == Run(u, [first] + rest)
  {
    RunAppend(s, [first], rest);
    RunAppend(u, [first], rest);
    RunLast(s, [], first);
    RunLast(u, [], first);
    assert [] + [first] == [first];
  }

  lemma ExchangeFails(s: State, t: nat, spurious: bool)
    requires t in s.writers && s.writers[t].Ready? && (spurious || s.write != s.writers[t].w)
    ensures Step(s, Exchange(t, spurious)) == At(Leave(s, t), t, AtLoad(s.writers[t].data))
  {
    assert s.writers[t := AtLoad(s.writers[t].data)] == (s.writers - {t})[t := AtLoad(s.writers[t].data)];
  }

  /** In any reachable state without a flush under way, a writer whose exchange fails, spuriously or
      because others reserved since its look, starts over: if nobody disturbs it then, it reserves or
      drops as a new write would. */
  lemma FailedExchangeIsRepeated(garbage: string, actions: seq<Action>, t: nat, spurious: bool)
    requires var s := Run(Initial(|garbage|, garbage), actions);
             && s.flusher.Idle? && t in s.writers && s.writers[t].Ready? && s.writers[t].data != ""
             && (spurious || s.write != s.writers[t].w)
    ensures var s := Run(Initial(|garbage|, garbage), actions);
            && s.read <= s.write
            && var data := s.writers[t].data;
               var u := Run(Step(s, Exchange(t, spurious)), WriteCall(s, t, data));
               t !in u.writers && WriteOutcome(s, u, data)
  {
    var s := Run(Initial(|garbage|, garbage), actions);
    RunInv(garbage, actions);
    RetrySucceeds(s, t, spurious);
  }

  lemma RetrySucceeds(s: State, t: nat, spurious: bool)
    requires Outstanding(s) && s.flusher.Idle? && t in s.writers && s.writers[t].Ready? && s.writers[t].data != ""
    requires spurious || s.write != s.writers[t].w
    ensures var data := s.writers[t].data;
            var u := Run(Step(s, Exchange(t, spurious)), WriteCall(s, t, data));
            t !in u.writers && WriteOutcome(s, u, data)
  {
    var data, again := s.writers[t].data, At(Leave(s, t), t, AtLoad(s.writers[t].data));
    ExchangeFails(s, t, spurious);
    var call := CallAgain(s, t, data, again);
  }

  lemma CallAgain(s: State, t: nat, data: string, again: State) returns (call: seq<Action>)
    requires Outstanding(s) && s.flusher.Idle? && data != "" && again == At(Leave(s, t), t, AtLoad(data))
    ensures call == WriteCall(s, t, data) && WriteDone(s, again, t, data, call)
  {
    var outside := Leave(s, t);
    call := WriteCall(outside, t, data);
    WriteFromLoad(outside, t, data);
    SameCall(s, outside, t, data);
    SameOutcome(s, outside, again, t, data, call);
  }

  /** The run of `call` from `again` is a write of the chunk as seen from `s`. */
  ghost predicate WriteDone(s: State, again: State, t: nat, data: string, call: seq<Action>) {
    var u := Run(again, call); t !in u.writers && WriteOutcome(s, u, data)
  }

  lemma SameOutcome(s: State, outside: State, again: State, t: nat, data: string, call: seq<Action>)
    requires outside == Leave(s, t) && WriteDone(outside, again, t, data, call)
    ensures WriteDone(s, again, t, data, call)
  {
  }

  /** A writer that starts over goes on like one that begins. */
  lemma WriteFromLoad(s: State, t: nat, data: string)
    requires Outstanding(s) && s.flusher.Idle? && t !in s.writers && data != ""
    ensures WriteDone(s, At(s, t, AtLoad(data)), t, data, WriteCall(s, t, data))
  {
    var rest := WriteCallBegins(s, t, data);
    BeginTwice(s, t, data);
    SameFromThere(At(s, t, AtLoad(data)), s, Begin(t, data), rest);
    WriteCallOutcome(s, t, data);
  }

  lemma BeginTwice(s: State, t: nat, data: string)
    requires t !in s.writers && data != ""
    ensures Step(At(s, t, AtLoad(data)), Begin(t, data)) == Step(s, Begin(t, data))
  {
  }

  lemma SameCall(s: State, outside: State, t: nat, data: string)
    requires s.read <= s.write && outside == Leave(s, t)
    ensures WriteCall(outside, t, data) == WriteCall(s, t, data)
  {
    assert Decision(outside, t, data) == Decision(s, t, data);
  }

  // ---------- The fate of every chunk ----------

  /** The writer still carries its chunk, neither reserved nor dropped. */
  ghost predicate OnTheWay(s: State, t: nat, data: string) {
    t in s.writers && !s.writers[t].Copying? && s.writers[t].data == data
  }

  /** The step reserves the chunk at the write position. */
  ghost predicate ReservesNow(s: State, u: State, data: string) {
    u.reserved == s.reserved + [Reservation(s.write, data)] && u.dropped == s.dropped
  }

  /** The step drops the chunk, which at the second look is longer than the space left then. */
  ghost predicate DropsNow(s: State, u: State, t: nat, data: string) {
    && u.reserved == s.reserved && u.dropped == s.dropped + 1
    && t in s.writers && s.writers[t].GotWriteAgain? && t !in u.writers
    && |data| > s.capacity - (s.writers[t].w - s.read)
  }

  lemma StepFate(s: State, a: Action, t: nat, data: string)
    requires OnTheWay(s, t, data)
    ensures var u := Step(s, a);
            OnTheWay(u, t, data) || ReservesNow(s, u, data) || DropsNow(s, u, t, data)
  {
  }

  /** At step `i` the chunk is reserved or dropped. */
  ghost predicate DecidedAt(s: State, more: seq<Action>, t: nat, data: string, i: nat) {
    && i < |more|
    && OnTheWay(Run(s, more[..i]), t, data)
    && (ReservesNow(Run(s, more[..i]), Run(s, more[..i + 1]), data)
        || DropsNow(Run(s, more[..i]), Run(s, more[..i + 1]), t, data))
  }

  /** Whatever happens after a chunk was begun, it is reserved, dropped for lack of space at its
      second look, or still on its way. */
  lemma {:induction false} EveryChunkHasAFate(s: State, more: seq<Action>, t: nat, data: string)
    requires OnTheWay(s, t, data)
    ensures OnTheWay(Run(s, more), t, data) || exists i: nat :: DecidedAt(s, more, t, data, i)
    decreases |more|
  {
    if more == [] {
    } else {
      var n := |more| - 1;
      var front := more[..n];
      EveryChunkHasAFate(s, front, t, data);
      if OnTheWay(Run(s, front), t, data) {
        StepFate(Run(s, front), more[n], t, data);
        assert more[..n + 1] == more;
        assert OnTheWay(Run(s, more), t, data) || DecidedAt(s, more, t, data, n);
      } else {
        var i: nat :| DecidedAt(s, front, t, data, i);
        assert more[..i] == front[..i] && more[..i + 1] == front[..i + 1];
        assert DecidedAt(s, more, t, data, i);
      }
    }
  }

  /** A chunk that is begun is on its way, and nothing else changes. */
  lemma BegunIsOnTheWay(s: State, t: nat, data: string)
    requires t !in s.writers && data != ""
    ensures OnTheWay(Step(s, Begin(t, data)), t, data)
  {
  }

  predicate BeginsNow(s: State, a: Action) {
    a.Begin? && a.t !in s.writers && a.data != ""
  }

  ghost function Begun(s: State, actions: seq<Action>): nat
    decreases |actions|
  {
    if actions == [] then 0
    else
      var front := actions[..|actions| - 1];
      Begun(s, front) + if BeginsNow(Run(s, front), actions[|actions| - 1]) then 1 else 0
  }

  ghost function Waiting(s: State): set<nat> {
    set t | t in s.writers && !s.writers[t].Copying?
  }

  lemma OneMore<T>(big: set<T>, small: set<T>, x: T)
    requires x !in small && big == small + {x}
    ensures |big| == |small| + 1
  {
  }

  lemma StepCounts(s: State, a: Action)
    ensures var u := Step(s, a);
            |u.reserved| + u.dropped + |Waiting(u)|
            == |s.reserved| + s.dropped + |Waiting(s)| + if BeginsNow(s, a) then 1 else 0
  {
    var u := Step(s, a);
    if BeginsNow(s, a) {
      OneMore(Waiting(u), Waiting(s), a.t);
    } else if u.reserved != s.reserved || u.dropped != s.dropped {
      DecisionLeaves(s, a);
      OneMore(Waiting(s), Waiting(u), a.t);
    } else {
      NoDecisionStays(s, a);
    }
  }

  lemma DecisionLeaves(s: State, a: Action)
    requires var u := Step(s, a); u.reserved != s.reserved || u.dropped != s.dropped
    ensures (a.Exchange? || a.ReloadRead?) && a.t !in Waiting(Step(s, a)) && Waiting(s) == Waiting(Step(s, a)) + {a.t}
    ensures var u := Step(s, a); |u.reserved| + u.dropped == |s.reserved| + s.dropped + 1
  {
  }

  lemma NoDecisionStays(s: State, a: Action)
    requires var u := Step(s, a); u.reserved == s.reserved && u.dropped == s.dropped && !BeginsNow(s, a)
    ensures Waiting(Step(s, a)) == Waiting(s)
  {
  }

  /** In every interleaving the chunks begun are as many as the reserved, the dropped and those still
      on their way. */
  lemma {:induction false} EveryChunkCounted(garbage: string, actions: seq<Action>)
    ensures var s := Run(Initial(|garbage|, garbage), actions);
            Begun(Initial(|garbage|, garbage), actions) == |s.reserved| + s.dropped + |Waiting(s)|
    decreases |actions|
  {
    if actions == [] {
    } else {
      var front := actions[..|actions| - 1];
      EveryChunkCounted(garbage, front);
      StepCounts(Run(Initial(|garbage|, garbage), front), actions[|actions| - 1]);
    }
  }
}
