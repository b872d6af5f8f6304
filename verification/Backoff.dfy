/** The delay before a timed-out batch is retried. */
module Backoff {

  /** Times in milliseconds; `AdmittedPolicy` is what the orchestrator's constructor accepts. */
  datatype RetryPolicy = RetryPolicy(maxRetries: nat, baseMs: int, maxMs: int)

  const ONE_HOUR_MS: int := 3_600_000
  const UINT64: int := 0x1_0000_0000_0000_0000
  const INT64_MAX: int := 0x7FFF_FFFF_FFFF_FFFF

  predicate AdmittedPolicy(p: RetryPolicy)
  {
    p.maxRetries <= 100 && 0 <= p.baseMs <= p.maxMs <= ONE_HOUR_MS
  }

  function Pow2(n: nat): (r: nat)
    ensures r >= 1
  {
    if n == 0 then 1 else 2 * Pow2(n - 1)
  }

  function Min(a: int, b: int): int { if a <= b then a else b }

  /** base * 2^(attempt-1), capped. */
  function Exponential(p: RetryPolicy, attempt: nat): int
    requires attempt >= 1
  {
    Min(p.baseMs * Pow2(attempt - 1), p.maxMs)
  }

  /** The only case in which the delay is not the capped exponential: an odd maximum that the
      last doubling would miss by exactly one millisecond. */
  predicate RoundsUp(p: RetryPolicy, attempt: nat)
    requires attempt >= 1
  {
    p.maxMs % 2 == 1 && attempt >= 2 && p.baseMs > 0 && p.baseMs * Pow2(attempt - 1) == p.maxMs - 1
  }

  function Delay(p: RetryPolicy, attempt: nat): int
    requires attempt >= 1
  {
    Exponential(p, attempt) + if RoundsUp(p, attempt) then 1 else 0
  }

  /** When a retry decided on at `nowNs` becomes due, as a 64-bit time. */
  function DueAt(p: RetryPolicy, nowNs: int, attempt: nat): nat
    requires attempt >= 1
  {
    (nowNs + Delay(p, attempt) * 1_000_000) % UINT64
  }

  lemma {:induction false} Pow2Monotone(a: nat, b: nat)
    requires a <= b
    ensures Pow2(a) <= Pow2(b)
  {
    if a < b { Pow2Monotone(a, b - 1); }
  }

  lemma ScaleMonotone(base: nat, a: nat, b: nat)
    requires a <= b
    ensures base * Pow2(a) <= base * Pow2(b)
  {
    Pow2Monotone(a, b);
    MulMonotone(base, Pow2(a), Pow2(b));
  }

  lemma MulMonotone(c: nat, x: nat, y: nat)
    requires x <= y
    ensures c * x <= c * y
  {
  }

  lemma Doubles(base: nat, n: nat)
    ensures base * Pow2(n + 1) == 2 * (base * Pow2(n))
  {
  }

  /** The point in time at which the retry becomes due. Neither a doubling nor the conversion to
      nanoseconds leaves its integer width; the sum is the 64-bit one. */
  method RetryAtNs(nowNs: int, attempt: nat, p: RetryPolicy) returns (atNs: int, delay: int)
    requires AdmittedPolicy(p) && attempt >= 1 && 0 <= nowNs < UINT64
    ensures delay == Delay(p, attempt) && p.baseMs <= delay <= p.maxMs
    ensures atNs == DueAt(p, nowNs, attempt)
    ensures nowNs + delay * 1_000_000 < UINT64 ==> atNs == nowNs + delay * 1_000_000
  {
    delay := p.baseMs;
    var exponent := 1;
    while delay != 0 && exponent < attempt
      invariant 1 <= exponent <= attempt
      invariant delay == p.baseMs * Pow2(exponent - 1) && 0 <= delay <= p.maxMs
      invariant delay == 0 <==> p.baseMs == 0
      invariant exponent >= 2 ==> delay < 2 * (p.maxMs / 2)
      decreases attempt - exponent
    {
      if delay >= p.maxMs / 2 {
        Saturates(p, attempt, exponent);
        delay := p.maxMs;
        break;
      }
      assert delay * 2 <= INT64_MAX;
      Doubles(p.baseMs, exponent - 1);
      delay := delay * 2;
      exponent := exponent + 1;
    }
    delay := Min(delay, p.maxMs);
    DelayBounds(p, attempt);
    assert 0 <= delay * 1_000_000 < UINT64;
    atNs := (nowNs + delay * 1_000_000) % UINT64;
  }

  lemma Saturates(p: RetryPolicy, attempt: nat, exponent: nat)
    requires AdmittedPolicy(p) && 1 <= exponent < attempt && p.baseMs > 0
    requires p.baseMs * Pow2(exponent - 1) >= p.maxMs / 2
    ensures Delay(p, attempt) == p.maxMs
  {
    var d, x := p.baseMs * Pow2(exponent - 1), p.baseMs * Pow2(attempt - 1);
    ScaleMonotone(p.baseMs, 0, exponent - 1);
    Doubles(p.baseMs, exponent - 1);
    if attempt > exponent + 1 {
      Doubles(p.baseMs, exponent);
      ScaleMonotone(p.baseMs, exponent + 1, attempt - 1);
    }
    Capped(x, d, p.maxMs);
  }

  lemma Capped(x: int, d: int, max: int)
    requires d >= 1 && max >= 1 && d >= max / 2 && (x == 2 * d || x >= 4 * d)
    ensures Min(x, max) + (if max % 2 == 1 && x == max - 1 then 1 else 0) == max
  {
  }

  /** Between the base and the maximum, exponential up to the cap, never more than one
      millisecond above it, and exactly the capped exponential when the maximum is even. */
  lemma DelayBounds(p: RetryPolicy, attempt: nat)
    requires AdmittedPolicy(p) && attempt >= 1
    ensures p.baseMs <= Delay(p, attempt) <= p.maxMs
    ensures Exponential(p, attempt) <= Delay(p, attempt) <= Exponential(p, attempt) + 1
    ensures p.maxMs % 2 == 0 ==> Delay(p, attempt) == Exponential(p, attempt)
    ensures Delay(p, attempt) != Exponential(p, attempt) <==> RoundsUp(p, attempt)
  {
    ScaleMonotone(p.baseMs, 0, attempt - 1);
  }

  /** The delay by itself: the base first, then twice as long each time, or the maximum once half of it
      is reached. */
  lemma DelayDoubles(p: RetryPolicy, attempt: nat)
    requires AdmittedPolicy(p) && attempt >= 1
    ensures Delay(p, 1) == p.baseMs
    ensures Delay(p, attempt + 1) ==
      if p.baseMs == 0 then 0
      else if Delay(p, attempt) >= p.maxMs / 2 then p.maxMs
      else 2 * Delay(p, attempt)
  {
    var x := p.baseMs * Pow2(attempt - 1);
    Doubles(p.baseMs, attempt - 1);
    if p.baseMs > 0 && x >= p.maxMs / 2 { Saturates(p, attempt + 1, attempt); }
  }

  /** When a retry is due: its delay, which lies between the base and the maximum, from now; a sum that
      leaves 64 bits wraps around once. */
  lemma DueIs(p: RetryPolicy, nowNs: int, attempt: nat)
    requires AdmittedPolicy(p) && attempt >= 1 && 0 <= nowNs < UINT64
    ensures var ns := nowNs + Delay(p, attempt) * 1_000_000;
      && p.baseMs <= Delay(p, attempt) <= p.maxMs
      && DueAt(p, nowNs, attempt) == if ns < UINT64 then ns else ns - UINT64
  {
    DelayBounds(p, attempt);
  }

  /** A later attempt never waits less. */
  lemma DelayMonotone(p: RetryPolicy, a: nat, b: nat)
    requires AdmittedPolicy(p) && 1 <= a <= b
    ensures Delay(p, a) <= Delay(p, b)
  {
    ScaleMonotone(p.baseMs, a - 1, b - 1);
    if RoundsUp(p, a) && a < b {
      ScaleMonotone(p.baseMs, a, b - 1);
      Doubles(p.baseMs, a - 1);
    }
  }

  /** The one-millisecond excess does occur. */
  lemma OddMaximumRoundsUp()
    ensures var p := RetryPolicy(3, 1, 3); AdmittedPolicy(p) && Delay(p, 2) == 3 && Exponential(p, 2) == 2
  {
    assert Pow2(1) == 2 * Pow2(0);
  }
}
