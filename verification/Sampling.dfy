// One-in-n sampling, alone and in front of a token bucket.

module Sampling {
  import opened Modular
  import opened RateLimiting

  class SamplingLimiter {
    const sample_rate: nat
    var counter: nat

    constructor (rate: nat)
      ensures sample_rate == EffectiveRate(rate) && counter == 0
    {
      sample_rate := if rate > 0 then rate else 1;
      counter := 0;
    }

    method ShouldLog() returns (pass: bool)
      requires sample_rate > 0
      modifies this
      ensures pass == SamplePasses(sample_rate, old(counter))
      ensures counter == if sample_rate > 1 then old(counter) + 1 else old(counter)
    {
      if !(sample_rate > 1) {
        return true;
      }
      var count := counter;
      counter := counter + 1;
      return count % sample_rate == 0;
    }

    function DroppedCount(): nat
      requires sample_rate > 0
      reads this
    {
      ReportedSamplingDrops(sample_rate, counter)
    }

    method Reset()
      modifies this
      ensures counter == 0
    {
      counter := 0;
    }
  }

  function EffectiveRate(rate: nat): nat {
    if rate > 0 then rate else 1
  }

  function SamplePasses(rate: nat, count: nat): bool
    requires rate > 0
  {
    rate <= 1 || count % rate == 0
  }

  /** What the sampler reports as dropped: it assumes that `total / rate` calls passed. */
  function ReportedSamplingDrops(rate: nat, total: nat): nat
    requires rate > 0
  {
    if !(rate > 1) || total == 0 then 0
    else QuotientBounded(total, rate); total - total / rate
  }

  lemma Grows(rate: nat, q: nat)
    requires rate > 0
    ensures q <= rate * q
  {
  }

  lemma QuotientBounded(n: nat, rate: nat)
    requires rate > 0
    ensures 0 <= n / rate <= n
  {
    var q, m := n / rate, n % rate;
    assert n == rate * q + m;
    if q < 0 {
      Multiple(rate, -q);
    } else {
      Grows(rate, q);
    }
  }

  datatype Combined = Combined(rate: nat, counter: nat, bucket: Bucket, logged: nat)
  {
    predicate Valid() {
      rate > 0
    }
  }

  datatype Stats = Stats(total: nat, rateLimited: nat, sampled: nat, logged: nat)

  function Passes(c: Combined): bool
    requires c.Valid()
  {
    SamplePasses(c.rate, c.counter)
  }

  function Step(c: Combined, now: int): (d: Combined)
    requires c.Valid()
    ensures d.Valid()
  {
    var counted := c.(counter := if c.rate > 1 then c.counter + 1 else c.counter);
    if !Passes(c) then counted
    else
      counted.(bucket := Try(c.bucket, now), logged := if Admits(c.bucket, now) then c.logged + 1 else c.logged)
  }

  function Report(c: Combined): Stats
    requires c.Valid()
  {
    Stats(c.counter, c.bucket.dropped, ReportedSamplingDrops(c.rate, c.counter), c.logged)
  }

  class CombinedLimiter {
    const limiter: RateLimiter
    const sampler: SamplingLimiter
    var logged_count: nat

    function State(): Combined
      reads this, limiter, sampler
    {
      Combined(sampler.sample_rate, sampler.counter, limiter.State(), logged_count)
    }

    constructor (messages_per_second: nat, burst_capacity: nat, sample_rate: nat, now: int)
      ensures State() == Start(messages_per_second, burst_capacity, sample_rate, now)
      ensures fresh(limiter) && fresh(sampler)
    {
      limiter := new RateLimiter(messages_per_second, burst_capacity, now);
      sampler := new SamplingLimiter(sample_rate);
      logged_count := 0;
    }

    method ShouldLog(now: int) returns (pass: bool)
      requires State().Valid()
      modifies this, limiter, sampler
      ensures pass == (Passes(old(State())) && Admits(old(State()).bucket, now))
      ensures State() == Step(old(State()), now)
    {
      var sampled := sampler.ShouldLog();
      if !sampled {
        return false;
      }
      var admitted := limiter.TryLog(now);
      if !admitted {
        return false;
      }
      logged_count := logged_count + 1;
      return true;
    }

    method GetStats() returns (stats: Stats)
      requires State().Valid()
      ensures stats == Report(State())
    {
      stats := Stats(sampler.counter, limiter.dropped_count, sampler.DroppedCount(), logged_count);
    }
  }

  function Start(messages_per_second: nat, burst_capacity: nat, sample_rate: nat, now: int): Combined {
    Combined(EffectiveRate(sample_rate), 0, Fresh(messages_per_second, burst_capacity, now), 0)
  }

  // ---------- Runs ----------

  function Final(c: Combined, times: seq<int>): (d: Combined)
    requires c.Valid()
    ensures d.Valid()
    decreases |times|
  {
    if times == [] then c else Step(Final(c, times[..|times| - 1]), times[|times| - 1])
  }

  /** How many of the calls pass the sampler. */
  function Sampled(c: Combined, times: seq<int>): nat
    requires c.Valid()
    decreases |times|
  {
    if times == [] then 0
    else
      var before := times[..|times| - 1];
      Sampled(c, before) + if Passes(Final(c, before)) then 1 else 0
  }

  function CeilDiv(n: nat, rate: nat): nat
    requires rate > 0
  {
    QuotientBounded(n, rate);
    n / rate + if n % rate == 0 then 0 else 1
  }

  lemma NextQuotient(n: nat, rate: nat)
    requires rate > 0
    ensures (n + 1) / rate == if n % rate + 1 == rate then n / rate + 1 else n / rate
    ensures (n + 1) % rate == if n % rate + 1 == rate then 0 else n % rate + 1
  {
    var q, m := n / rate, n % rate;
    assert n == rate * q + m;
    if m + 1 == rate {
      assert n + 1 == rate * (q + 1) + 0;
      QuotientUnique(n + 1, rate, q + 1, 0);
    } else {
      QuotientUnique(n + 1, rate, q, m + 1);
    }
  }

  /** With a sampling rate of two or more every call is counted, exactly one in `rate`
      (rounded up) passes the sampler, and each passing call is either logged or counted as
      rate-limited. With a lower rate nothing is counted and everything passes. */
  lemma {:induction false} SamplingAccounts(mps: nat, burst: nat, rate: nat, start: int, times: seq<int>)
    ensures var c := Start(mps, burst, rate, start);
            var d := Final(c, times);
            && d.rate == EffectiveRate(rate)
            && d.counter == (if rate >= 2 then |times| else 0)
            && Sampled(c, times) == (if rate >= 2 then CeilDiv(|times|, rate) else |times|)
            && d.logged + d.bucket.dropped == Sampled(c, times)
    decreases |times|
  {
    if times != [] {
      var before := times[..|times| - 1];
      SamplingAccounts(mps, burst, rate, start, before);
      if rate >= 2 {
        NextQuotient(|before|, rate);
      }
    } else if rate >= 2 {
      QuotientUnique(0, rate, 0, 0);
    }
  }

  /** The reported sampling drops exceed the actual ones by one, except when the rate divides
      the number of calls. */
  lemma ReportedDropsExcess(mps: nat, burst: nat, rate: nat, start: int, times: seq<int>)
    requires rate >= 2
    ensures var c := Start(mps, burst, rate, start);
            var reported := Report(Final(c, times)).sampled;
            var actual := |times| - Sampled(c, times);
            reported == actual + if |times| % rate == 0 then 0 else 1
  {
    SamplingAccounts(mps, burst, rate, start, times);
    if times == [] {
      QuotientUnique(0, rate, 0, 0);
    }
  }

  /** The four reported numbers add up exactly when sampling is on and the rate divides the
      number of calls, or nothing was called. */
  lemma ReportAddsUpIff(mps: nat, burst: nat, rate: nat, start: int, times: seq<int>)
    ensures var stats := Report(Final(Start(mps, burst, rate, start), times));
            stats.logged + stats.rateLimited + stats.sampled == stats.total
            <==> times == [] || (rate >= 2 && |times| % rate == 0)
  {
    SamplingAccounts(mps, burst, rate, start, times);
    if rate >= 2 {
      ReportedDropsExcess(mps, burst, rate, start, times);
      if times == [] {
        QuotientUnique(0, rate, 0, 0);
      }
    }
  }

  /** The reported total is the number of calls exactly when sampling is on, or nothing was called. */
  lemma TotalCountsCallsIff(mps: nat, burst: nat, rate: nat, start: int, times: seq<int>)
    ensures Report(Final(Start(mps, burst, rate, start), times)).total == |times| <==> rate >= 2 || times == []
  {
    SamplingAccounts(mps, burst, rate, start, times);
  }

  /** How many of the calls were answered true. */
  function Answered(c: Combined, times: seq<int>): nat
    requires c.Valid()
    decreases |times|
  {
    if times == [] then 0
    else
      var before, now := times[..|times| - 1], times[|times| - 1];
      Answered(c, before) + if Passes(Final(c, before)) && Admits(Final(c, before).bucket, now) then 1 else 0
  }

  /** The logged count is the number of calls answered true. */
  lemma {:induction false} LoggedAreAnswered(c: Combined, times: seq<int>)
    requires c.Valid()
    ensures Final(c, times).logged == c.logged + Answered(c, times)
    decreases |times|
  {
    if times == [] {
    } else {
      LoggedAreAnswered(c, times[..|times| - 1]);
    }
  }

  /** With sampling on, the calls that pass the sampler are the first and every rate-th one after it. */
  lemma EveryRateThPasses(mps: nat, burst: nat, rate: nat, start: int, times: seq<int>)
    ensures Passes(Final(Start(mps, burst, rate, start), times)) <==> rate < 2 || |times| % rate == 0
  {
    SamplingAccounts(mps, burst, rate, start, times);
  }
}
