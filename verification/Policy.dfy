/** Retry policies and the delay before a retry. Durations are nanoseconds. */
module Policy {
  import opened Wrappers
  import opened Text

  const MILLISECOND: int := 1_000_000
  const SECOND: int := 1_000_000_000

  const DEFAULT_PER_ATTEMPT_TIMEOUT: int := 2 * SECOND
  const DEFAULT_INITIAL_BACKOFF: int := 100 * MILLISECOND
  const DEFAULT_MAX_BACKOFF: int := 2 * SECOND
  const DEFAULT_STATUSES: set<int> := {408, 429, 500, 502, 503, 504}

  datatype RetryPolicy = RetryPolicy(
    maxRetries: int,
    perAttemptTimeout: int,
    maxElapsedTime: int,
    initialBackoff: int,
    maxBackoff: int,
    retryOnStatuses: Option<set<int>>,
    retryOn429: bool)

  predicate Normalized(p: RetryPolicy) {
    p.maxRetries >= 0 && p.perAttemptTimeout > 0 && p.initialBackoff > 0 && p.maxBackoff > 0 && p.retryOnStatuses.Some?
  }

  /** normalizeRetryPolicy. */
  function Normalize(p: RetryPolicy): (q: RetryPolicy)
    ensures Normalized(q)
    ensures Normalized(p) ==> q == p
    ensures q.maxRetries == p.maxRetries || (p.maxRetries < 0 && q.maxRetries == 0)
    ensures q.perAttemptTimeout == p.perAttemptTimeout
      || (p.perAttemptTimeout <= 0 && q.perAttemptTimeout == 2 * SECOND)
    ensures q.initialBackoff == p.initialBackoff || (p.initialBackoff <= 0 && q.initialBackoff == 100 * MILLISECOND)
    ensures q.maxBackoff == p.maxBackoff || (p.maxBackoff <= 0 && q.maxBackoff == 2 * SECOND)
    ensures q.retryOnStatuses == p.retryOnStatuses ||
      (p.retryOnStatuses.None? && q.retryOnStatuses == Some({408, 429, 500, 502, 503, 504}))
    ensures q.maxElapsedTime == p.maxElapsedTime && q.retryOn429 == p.retryOn429
  {
    p.(maxRetries := if p.maxRetries < 0 then 0 else p.maxRetries,
       perAttemptTimeout := if p.perAttemptTimeout <= 0 then DEFAULT_PER_ATTEMPT_TIMEOUT else p.perAttemptTimeout,
       initialBackoff := if p.initialBackoff <= 0 then DEFAULT_INITIAL_BACKOFF else p.initialBackoff,
       maxBackoff := if p.maxBackoff <= 0 then DEFAULT_MAX_BACKOFF else p.maxBackoff,
       retryOnStatuses := if p.retryOnStatuses.None? then Some(DEFAULT_STATUSES) else p.retryOnStatuses)
  }

  // ----- Retry-After -----

  /** parseRetryAfter; `untilDate` is the time left until the HTTP date the value denotes,
      when it denotes one. */
  function ParseRetryAfter(value: string, untilDate: Option<int>): (delay: Option<int>)
    ensures value == "" ==> delay.None?
    ensures value != "" && ParseInt(Trim(value)).Some? ==>
      var seconds := ParseInt(Trim(value)).value;
      && (delay.Some? <==> 0 <= seconds && IsInt64(seconds * 1_000_000_000))
      && (delay.Some? ==> delay.value == seconds * 1_000_000_000)
    ensures value != "" && ParseInt(Trim(value)).None? ==>
      && (delay.Some? <==> untilDate.Some?)
      && (delay.Some? ==> delay.value == if untilDate.value > 0 then untilDate.value else 0)
  {
    if value == "" then None
    else match ParseInt(Trim(value))
      case Some(seconds) =>
        if seconds < 0 || seconds > MAX_INT64 / SECOND then None else Some(seconds * SECOND)
      case None =>
        if untilDate.None? then None
        else if untilDate.value < 0 then Some(0) else untilDate
  }

  // ----- exponential backoff -----

  function Pow2(n: nat): nat {
    if n == 0 then 1 else 2 * Pow2(n - 1)
  }

  /** The doubling loop, in the 64-bit arithmetic of durations. */
  function Doubled(base: int, max: int, times: nat): int
    decreases times
  {
    if times == 0 then base
    else if base >= max || base > Wrap64(max - base) then max
    else Doubled(Wrap64(2 * base), max, times - 1)
  }

  lemma DoubledOnce(base: int, max: int, times: nat)
    requires times > 0
    ensures Doubled(base, max, times) ==
      if base >= max || base > Wrap64(max - base) then max else Doubled(Wrap64(2 * base), max, times - 1)
  {
  }

  lemma DoubledEnds(base: int, max: int)
    ensures Doubled(base, max, 0) == base
  {
  }

  /** retryDelay without a usable Retry-After; `draw` is the source of randomness, of which
      the code takes a value below the base. */
  function Backoff(p: RetryPolicy, attempt: nat, draw: nat): int {
    var base := Doubled(p.initialBackoff, p.maxBackoff, attempt);
    if base <= 0 then 0
    else if base >= p.maxBackoff then p.maxBackoff
    else
      var jitter := draw % base;
      if jitter >= p.maxBackoff - base then p.maxBackoff else base + jitter
  }

  function RetryDelay(p: RetryPolicy, attempt: nat, retryAfter: Option<int>, draw: nat): int {
    if retryAfter.Some? then retryAfter.value else Backoff(p, attempt, draw)
  }

  lemma {:induction false} Pow2AtLeast(base: int, times: nat)
    requires 0 < base
    ensures base * Pow2(times) >= base
    ensures times > 0 ==> base * Pow2(times) >= 2 * base
  {
    if times > 0 {
      Pow2AtLeast(base, times - 1);
      assert base * Pow2(times) == 2 * (base * Pow2(times - 1));
    }
  }

  lemma Pow2Next(base: int, times: nat)
    ensures base * Pow2(times + 1) == 2 * base * Pow2(times)
  {
  }

  lemma Pow2Zero(base: int)
    ensures base * Pow2(0) == base
  {
  }

  lemma {:induction false} DoubledClosedForm(base: int, max: int, times: nat)
    requires 0 < base && 0 < max && IsInt64(max)
    ensures times > 0 || base <= max ==> Doubled(base, max, times) == Min(base * Pow2(times), max)
    ensures times == 0 ==> Doubled(base, max, times) == base
    decreases times
  {
    hide Wrap64, Pow2;
    if times > 0 {
      Pow2AtLeast(base, times);
      if base < max && base <= max - base {
        assert Wrap64(max - base) == max - base && Wrap64(2 * base) == 2 * base;
        DoubledClosedForm(2 * base, max, times - 1);
        Pow2Next(base, times - 1);
      } else if base < max {
        assert Wrap64(max - base) == max - base;
      }
    } else {
      Pow2Zero(base);
    }
  }

  /** Durations are 64-bit integers. */
  predicate Representable(p: RetryPolicy) {
    IsInt64(p.initialBackoff) && IsInt64(p.maxBackoff)
  }

  /** The capped exponential plus jitter, capped again: it never falls below the capped
      exponential nor exceeds the maximum. */
  predicate IsJittered(p: RetryPolicy, attempt: nat, draw: nat, delay: int) {
    var inner := Min(p.initialBackoff * Pow2(attempt), p.maxBackoff);
    0 < inner <= delay <= p.maxBackoff && delay == Min(inner + draw % inner, p.maxBackoff)
  }

  /** That is the delay of a normalised policy. The powers here are true integers: no step of
      the loop wraps around. */
  lemma BackoffClosedForm(p: RetryPolicy, attempt: nat, draw: nat)
    requires Normalized(p) && Representable(p)
    ensures IsJittered(p, attempt, draw, Backoff(p, attempt, draw))
  {
    DoubledClosedForm(p.initialBackoff, p.maxBackoff, attempt);
    Pow2AtLeast(p.initialBackoff, attempt);
    if attempt == 0 {
      assert p.initialBackoff * Pow2(0) == p.initialBackoff;
    }
  }

  /** retryDelay as written, for every policy, normalised or not. */
  method ComputeRetryDelay(p: RetryPolicy, attempt: nat, retryAfter: Option<int>, draw: nat) returns (delay: int)
    requires Representable(p)
    ensures delay == RetryDelay(p, attempt, retryAfter, draw)
    ensures retryAfter.Some? ==> delay == retryAfter.value
    ensures retryAfter.None? ==> IsInt64(delay)
    ensures retryAfter.None? && Normalized(p) ==> IsJittered(p, attempt, draw, delay)
  {
    hide Wrap64, IsJittered, Normalized, Doubled;
    if Normalized(p) {
      BackoffClosedForm(p, attempt, draw);
    }
    if retryAfter.Some? {
      return retryAfter.value;
    }
    var base := p.initialBackoff;
    var i := 0;
    while i < attempt
      invariant 0 <= i <= attempt && IsInt64(base)
      invariant Doubled(base, p.maxBackoff, attempt - i) == Doubled(p.initialBackoff, p.maxBackoff, attempt)
    {
      DoubledOnce(base, p.maxBackoff, attempt - i);
      if base >= p.maxBackoff || base > Wrap64(p.maxBackoff - base) {
        base := p.maxBackoff;
        break;
      }
      base := Wrap64(base * 2);
      i := i + 1;
    }
    DoubledEnds(base, p.maxBackoff);
    assert base == Doubled(p.initialBackoff, p.maxBackoff, attempt);
    if base <= 0 {
      return 0;
    }
    if base >= p.maxBackoff {
      return p.maxBackoff;
    }
    var jitter := draw % base;
    assert IsInt64(p.maxBackoff - base);
    if jitter >= p.maxBackoff - base {
      return p.maxBackoff;
    }
    assert IsInt64(base + jitter);
    return base + jitter;
  }
}
