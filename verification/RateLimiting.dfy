// Token-bucket rate limiter, sampler, and their combination.
// Clock readings are in nanoseconds; tokens are exact reals.

module RateLimiting {

  const NANOS_PER_MILLI: int := 1000000

  /** duration_cast to milliseconds: the quotient truncated toward zero. */
  function Millis(nanos: int): (ms: int)
    ensures nanos >= 0 ==> ms * NANOS_PER_MILLI <= nanos < (ms + 1) * NANOS_PER_MILLI
    ensures nanos < 0 ==> (ms - 1) * NANOS_PER_MILLI < nanos <= ms * NANOS_PER_MILLI <= 0
  {
    if nanos >= 0 then nanos / NANOS_PER_MILLI else -(-nanos / NANOS_PER_MILLI)
  }

  datatype Bucket = Bucket(max: nat, rate: nat, tokens: real, last: int, dropped: nat)

  ghost predicate InRange(b: Bucket) {
    0.0 <= b.tokens <= b.max as real
  }

  function Refill(b: Bucket, now: int): Bucket {
    var elapsed := Millis(now - b.last);
    if elapsed > 0 then
      var filled := b.tokens + (b.rate * elapsed) as real / 1000.0;
      b.(tokens := if filled <= b.max as real then filled else b.max as real, last := now)
    else b
  }

  function Admits(b: Bucket, now: int): bool {
    b.max == 0 || Refill(b, now).tokens >= 1.0
  }

  function Try(b: Bucket, now: int): Bucket {
    if b.max == 0 then b
    else
      var r := Refill(b, now);
      if r.tokens >= 1.0 then r.(tokens := r.tokens - 1.0) else r.(dropped := r.dropped + 1)
  }

  class RateLimiter {
    const max_tokens: nat
    const refill_rate: nat
    var tokens: real
    var last_refill: int
    var dropped_count: nat

    function State(): Bucket
      reads this
    {
      Bucket(max_tokens, refill_rate, tokens, last_refill, dropped_count)
    }

    constructor (messages_per_second: nat, burst_capacity: nat, now: int)
      ensures State() == Fresh(messages_per_second, burst_capacity, now)
    {
      max_tokens := if burst_capacity > 0 then burst_capacity else messages_per_second;
      refill_rate := messages_per_second;
      tokens := (if burst_capacity > 0 then burst_capacity else messages_per_second) as real;
      last_refill := now;
      dropped_count := 0;
    }

    method TryLog(now: int) returns (admitted: bool)
      modifies this
      ensures admitted == Admits(old(State()), now)
      ensures State() == Try(old(State()), now)
    {
      if !(max_tokens > 0) {
        return true;
      }
      RefillTokens(now);
      var current := tokens;
      if current >= 1.0 {
        tokens := current - 1.0;
        return true;
      }
      dropped_count := dropped_count + 1;
      return false;
    }

    method RefillTokens(now: int)
      modifies this
      ensures State() == Refill(old(State()), now)
    {
      var elapsed := Millis(now - last_refill);
      if elapsed > 0 {
        var tokens_to_add := (refill_rate * elapsed) as real / 1000.0;
        var current := tokens;
        tokens := if current + tokens_to_add <= max_tokens as real then current + tokens_to_add else max_tokens as real;
        last_refill := now;
      }
    }

    method Reset(now: int)
      modifies this
      ensures State() == Fresh(0, 0, now).(max := max_tokens, rate := refill_rate, tokens := max_tokens as real)
    {
      tokens := max_tokens as real;
      dropped_count := 0;
      last_refill := now;
    }
  }

  function Fresh(messages_per_second: nat, burst_capacity: nat, now: int): Bucket {
    var max := if burst_capacity > 0 then burst_capacity else messages_per_second;
    Bucket(max, messages_per_second, max as real, now, 0)
  }

  // ---------- Runs ----------

  /** The bucket after calls at the given times. */
  function After(b: Bucket, times: seq<int>): Bucket
    decreases |times|
  {
    if times == [] then b else After(Try(b, times[0]), times[1..])
  }

  /** How many of the calls are let through. */
  function Admitted(b: Bucket, times: seq<int>): nat
    decreases |times|
  {
    if times == [] then 0
    else (if Admits(b, times[0]) then 1 else 0) + Admitted(Try(b, times[0]), times[1..])
  }

  ghost predicate Monotone(start: int, times: seq<int>)
    decreases |times|
  {
    times == [] || (start <= times[0] && Monotone(times[0], times[1..]))
  }

  lemma {:induction false} MonotoneEnds(start: int, times: seq<int>)
    requires Monotone(start, times) && times != []
    ensures start <= times[0] <= times[|times| - 1]
    decreases |times|
  {
    if |times| > 1 {
      MonotoneEnds(times[0], times[1..]);
    }
  }

  // ---------- What time earns ----------

  /** The tokens the rate (per second) yields over an exact span of nanoseconds. */
  ghost function Earned(rate: nat, nanos: int): real {
    (rate * nanos) as real / 1000000000.0
  }

  lemma EarnedAdds(rate: nat, x: int, y: int)
    ensures Earned(rate, x) + Earned(rate, y) == Earned(rate, x + y)
  {
    assert rate * (x + y) == rate * x + rate * y;
  }

  lemma EarnedMonotone(rate: nat, x: int, y: int)
    requires x <= y
    ensures Earned(rate, x) <= Earned(rate, y)
  {
    ScaledOrder(rate, x, y);
  }

  // ---------- One refill ----------

  lemma ScaledOrder(rate: nat, x: int, y: int)
    requires x <= y
    ensures rate * x <= rate * y
  {
  }

  lemma MillisEarn(rate: nat, ms: int, nanos: int)
    requires 0 < ms && ms * NANOS_PER_MILLI <= nanos < (ms + 1) * NANOS_PER_MILLI
    ensures 0.0 <= (rate * ms) as real / 1000.0 <= Earned(rate, nanos)
    ensures rate > 0 ==> (rate * ms) as real / 1000.0 > Earned(rate, nanos) / 2.0
  {
    var product := rate * ms;
    assert rate * (ms * NANOS_PER_MILLI) == product * NANOS_PER_MILLI;
    assert rate * (2 * ms * NANOS_PER_MILLI - 1) == 2 * product * NANOS_PER_MILLI - rate;
    ScaledOrder(rate, 0, ms);
    ScaledOrder(rate, ms * NANOS_PER_MILLI, nanos);
    ScaledOrder(rate, nanos, 2 * ms * NANOS_PER_MILLI - 1);
    TokensFromProducts(product, rate * nanos, rate);
  }

  lemma TokensFromProducts(product: int, exact: int, rate: nat)
    requires 0 <= product && product * NANOS_PER_MILLI <= exact <= 2 * product * NANOS_PER_MILLI - rate
    ensures 0.0 <= product as real / 1000.0 <= exact as real / 1000000000.0
    ensures rate > 0 ==> product as real / 1000.0 > exact as real / 1000000000.0 / 2.0
  {
  }

  /** A refill keeps the range, credits at most the exact time it accounts for, and leaves
      less than a millisecond unaccounted. */
  lemma RefillBounds(b: Bucket, now: int)
    requires InRange(b) && b.last <= now
    ensures InRange(Refill(b, now))
    ensures b.last <= Refill(b, now).last <= now < Refill(b, now).last + NANOS_PER_MILLI
    ensures Refill(b, now).last != b.last ==> Refill(b, now).last == now
    ensures b.tokens <= Refill(b, now).tokens <= b.tokens + Earned(b.rate, Refill(b, now).last - b.last)
  {
    var elapsed := Millis(now - b.last);
    if elapsed > 0 {
      MillisEarn(b.rate, elapsed, now - b.last);
    }
  }

  /** A refill that moves the clock mark, unless the bucket fills up, credits more than half
      of the time it covers. */
  lemma RefillCreditsOverHalf(b: Bucket, now: int)
    requires InRange(b) && b.last <= now && Refill(b, now).last != b.last
    requires Refill(b, now).tokens < b.max as real && b.rate > 0
    ensures Refill(b, now).tokens - b.tokens > Earned(b.rate, now - b.last) / 2.0
  {
    MillisEarn(b.rate, Millis(now - b.last), now - b.last);
  }

  // ---------- Window bound ----------

  /** In any run with a nondecreasing clock the tokens stay in [0, max], and what was let
      through was either there at the start or earned since. */
  lemma {:induction false} Spending(b: Bucket, times: seq<int>)
    requires InRange(b) && b.max > 0 && Monotone(b.last, times)
    ensures InRange(After(b, times))
    ensures After(b, times).rate == b.rate && After(b, times).max == b.max
    ensures b.last <= After(b, times).last
    ensures times != [] ==> After(b, times).last <= times[|times| - 1]
    ensures Admitted(b, times) as real + After(b, times).tokens
            <= b.tokens + Earned(b.rate, After(b, times).last - b.last)
    decreases |times|
  {
    if times == [] {
    } else {
      var c := Try(b, times[0]);
      RefillBounds(b, times[0]);
      assert Monotone(c.last, times[1..]);
      Spending(c, times[1..]);
      EarnedAdds(b.rate, c.last - b.last, After(b, times).last - c.last);
    }
  }

  /** Refilling early changes nothing: the call itself refills to the same point. */
  lemma RefillOnce(b: Bucket, now: int)
    requires b.last <= now && b.max > 0
    ensures Refill(Refill(b, now), now) == Refill(b, now)
    ensures Try(Refill(b, now), now) == Try(b, now) && Admits(Refill(b, now), now) == Admits(b, now)
  {
    var c := Refill(b, now);
    if c.last == now {
      assert Millis(now - c.last) == 0;
    }
  }

  /** Window bound: from any state in range, the calls let through in a window number at most the
      burst plus what the rate earns over the window and one more millisecond. */
  lemma WindowBound(b: Bucket, times: seq<int>)
    requires InRange(b) && b.max > 0 && times != [] && Monotone(b.last, times)
    ensures Admitted(b, times) as real
            <= b.max as real + Earned(b.rate, times[|times| - 1] - times[0] + NANOS_PER_MILLI)
  {
    var c := Refill(b, times[0]);
    var last := times[|times| - 1];
    RefillBounds(b, times[0]);
    RefillOnce(b, times[0]);
    assert Admitted(c, times) == Admitted(b, times);
    Spending(c, times);
    var spent, span := After(c, times).last - c.last, last - times[0] + NANOS_PER_MILLI;
    EarnedMonotone(b.rate, spent, span);
    WithinBudget(Admitted(c, times) as real, After(c, times).tokens, c.tokens, b.max as real,
                 Earned(b.rate, spent), Earned(b.rate, span));
  }

  lemma WithinBudget(admitted: real, left: real, before: real, max: real, earned: real, limit: real)
    requires admitted + left <= before + earned && 0.0 <= left && before <= max && earned <= limit
    ensures admitted <= max + limit
  {
  }

  lemma {:induction false} AfterSplit(b: Bucket, before: seq<int>, times: seq<int>)
    ensures After(b, before + times) == After(After(b, before), times)
    ensures Admitted(b, before + times) == Admitted(b, before) + Admitted(After(b, before), times)
    decreases |before|
  {
    if before == [] {
      assert before + times == times;
    } else {
      assert (before + times)[1..] == before[1..] + times;
      AfterSplit(Try(b, before[0]), before[1..], times);
    }
  }

  lemma {:induction false} MonotoneParts(b: Bucket, before: seq<int>, times: seq<int>)
    requires InRange(b) && b.max > 0 && Monotone(b.last, before + times)
    ensures Monotone(b.last, before) && Monotone(After(b, before).last, times)
    decreases |before|
  {
    if before == [] {
      assert before + times == times;
    } else {
      assert (before + times)[1..] == before[1..] + times;
      RefillBounds(b, before[0]);
      var c := Try(b, before[0]);
      assert Monotone(c.last, before[1..] + times);
      MonotoneParts(c, before[1..], times);
      if |before| > 1 {
        assert (before + times)[1] == before[1];
        SubMonotone(before[0], before[1..], times);
      }
    }
  }

  lemma {:induction false} SubMonotone(start: int, before: seq<int>, times: seq<int>)
    requires Monotone(start, before + times)
    ensures Monotone(start, before)
    decreases |before|
  {
    if before == [] {
    } else {
      assert (before + times)[1..] == before[1..] + times;
      SubMonotone(before[0], before[1..], times);
    }
  }

  /** The window bound for calls `i..j` of any run of a fresh enabled limiter. */
  lemma WindowBoundInRun(rate: nat, burst: nat, start: int, before: seq<int>, window: seq<int>)
    requires Fresh(rate, burst, start).max > 0 && window != [] && Monotone(start, before + window)
    ensures var b := Fresh(rate, burst, start);
            && InRange(After(b, before))
            && (Admitted(b, before + window) - Admitted(b, before)) as real
               <= b.max as real + Earned(rate, window[|window| - 1] - window[0] + NANOS_PER_MILLI)
  {
    var b := Fresh(rate, burst, start);
    AfterSplit(b, before, window);
    MonotoneParts(b, before, window);
    Spending(b, before);
    WindowBound(After(b, before), window);
  }

  // ---------- No starvation ----------

  /** Over calls that are all denied, more than half of the accounted time is credited. */
  lemma {:induction false} DeniedRunAccumulates(b: Bucket, times: seq<int>)
    requires InRange(b) && b.max > 0 && b.rate > 0 && Monotone(b.last, times)
    requires Admitted(b, times) == 0 && b.tokens < 1.0
    ensures After(b, times).tokens < 1.0
    ensures After(b, times).tokens - b.tokens >= Earned(b.rate, After(b, times).last - b.last) / 2.0
    ensures times != [] ==> times[|times| - 1] < After(b, times).last + NANOS_PER_MILLI
    decreases |times|
  {
    if times == [] {
    } else {
      var c := Try(b, times[0]);
      RefillBounds(b, times[0]);
      if c.last != b.last {
        RefillCreditsOverHalf(b, times[0]);
      }
      assert Monotone(c.last, times[1..]);
      DeniedRunAccumulates(c, times[1..]);
      EarnedAdds(b.rate, c.last - b.last, After(b, times).last - c.last);
    }
  }

  /** An enabled limiter with a positive rate never denies calls over a stretch of
      2000/rate + 1 milliseconds. */
  lemma NoStarvation(b: Bucket, times: seq<int>)
    requires InRange(b) && b.max > 0 && b.rate > 0 && times != []
    requires Monotone(b.last, times) && Admitted(b, times) == 0
    ensures b.rate * (times[|times| - 1] - times[0] - NANOS_PER_MILLI) < 2000 * NANOS_PER_MILLI
  {
    var c := Try(b, times[0]);
    RefillBounds(b, times[0]);
    assert Monotone(c.last, times[1..]);
    DeniedRunAccumulates(c, times[1..]);
    var span := After(c, times[1..]).last - c.last;
    assert Earned(b.rate, span) / 2.0 < 1.0;
    EarnedMonotone(b.rate, times[|times| - 1] - times[0] - NANOS_PER_MILLI, span);
  }

  // ---------- Exact amounts ----------

  /** A refill credits the rate for each whole millisecond since the mark, up to the maximum, and moves
      the mark to the present; with no whole millisecond it does nothing. */
  lemma RefillIsExact(b: Bucket, ms: nat, nanos: nat)
    requires nanos < NANOS_PER_MILLI
    ensures var now := b.last + ms * NANOS_PER_MILLI + nanos;
            var filled := b.tokens + (b.rate * ms) as real / 1000.0;
            Refill(b, now) == if ms == 0 then b
                              else b.(tokens := if filled <= b.max as real then filled else b.max as real, last := now)
  {
    assert Millis(ms * NANOS_PER_MILLI + nanos) == ms;
  }

  /** A limiter made with neither rate nor burst lets everything through and counts nothing. */
  lemma {:induction false} UnlimitedAdmitsAll(b: Bucket, times: seq<int>)
    requires b.max == 0
    ensures Admitted(b, times) == |times| && After(b, times) == b
    decreases |times|
  {
    if times == [] {
    } else {
      UnlimitedAdmitsAll(b, times[1..]);
    }
  }

  lemma ZeroIsUnlimited(rate: nat, burst: nat, start: int, times: seq<int>)
    ensures Fresh(rate, burst, start).max == 0 <==> rate == 0 && burst == 0
    ensures rate == 0 && burst == 0 ==> Admitted(Fresh(rate, burst, start), times) == |times|
  {
    if rate == 0 && burst == 0 {
      UnlimitedAdmitsAll(Fresh(rate, burst, start), times);
    }
  }

  lemma {:induction false} AtOneInstant(b: Bucket, times: seq<int>, whole: nat)
    requires b.max > 0 && b.tokens == whole as real && forall i :: 0 <= i < |times| ==> times[i] == b.last
    ensures Admitted(b, times) == if |times| <= whole then |times| else whole
    decreases |times|
  {
    if times == [] {
    } else {
      RefillIsExact(b, 0, 0);
      AtOneInstant(Try(b, times[0]), times[1..], if whole > 0 then whole - 1 else 0);
    }
  }

  /** A new limiter lets through at one instant exactly its burst, or its rate if no burst is given. */
  lemma BurstAtOnce(rate: nat, burst: nat, start: int, times: seq<int>)
    requires rate > 0 || burst > 0
    requires forall i :: 0 <= i < |times| ==> times[i] == start
    ensures var most := if burst > 0 then burst else rate;
            Admitted(Fresh(rate, burst, start), times) == if |times| <= most then |times| else most
  {
    AtOneInstant(Fresh(rate, burst, start), times, if burst > 0 then burst else rate);
  }

  /** The drop count is the number of calls denied. */
  lemma {:induction false} DropsAreDenials(b: Bucket, times: seq<int>)
    ensures After(b, times).dropped + Admitted(b, times) == b.dropped + |times|
    decreases |times|
  {
    if times == [] {
    } else {
      DropsAreDenials(Try(b, times[0]), times[1..]);
    }
  }
}
