/** Exponential backoff of sink retries (rustium-core, runtime.rs). Durations are counted in nanoseconds. */
module Backoff {

  datatype RetryState = RetryState(attempts: nat, delay: nat)

  /** The longest `Duration`: 2^64 - 1 seconds and 999999999 nanoseconds. */
  const MAX_DURATION: nat := 0xFFFF_FFFF_FFFF_FFFF * 1_000_000_000 + 999_999_999

  /** One nanosecond more would not fit 64-bit seconds. */
  lemma MaxDuration()
    ensures MAX_DURATION + 1 == 0x1_0000_0000_0000_0000 * 1_000_000_000
  {
  }

  function Min(a: nat, b: nat): nat { if a <= b then a else b }

  function SaturatingDouble(delay: nat): nat { Min(2 * delay, MAX_DURATION) }

  function NextDelay(delay: nat, maxDelay: nat): nat { Min(SaturatingDouble(delay), maxDelay) }

  /** The wait before retry number `k`, counted from one. */
  function DelayAt(initial: nat, maxDelay: nat, k: nat): nat
    requires k > 0
  {
    if k == 1 then initial else NextDelay(DelayAt(initial, maxDelay, k - 1), maxDelay)
  }

  /** Time slept over the first `n` retries. */
  function TotalDelay(initial: nat, maxDelay: nat, n: nat): nat {
    if n == 0 then 0 else TotalDelay(initial, maxDelay, n - 1) + DelayAt(initial, maxDelay, n)
  }

  lemma DelayStep(initial: nat, maxDelay: nat, n: nat)
    ensures DelayAt(initial, maxDelay, 1) == initial && TotalDelay(initial, maxDelay, 0) == 0
    ensures TotalDelay(initial, maxDelay, n + 1) == TotalDelay(initial, maxDelay, n) + DelayAt(initial, maxDelay, n + 1)
    ensures DelayAt(initial, maxDelay, n + 2) == NextDelay(DelayAt(initial, maxDelay, n + 1), maxDelay)
  {
  }

  function Pow2(k: nat): nat { if k == 0 then 1 else 2 * Pow2(k - 1) }

  /** Saturation never shows: beyond the first wait the delay is the exact power of two, capped. */
  lemma {:induction false} DelayIsExponential(initial: nat, maxDelay: nat, k: nat)
    requires k > 0 && maxDelay <= MAX_DURATION
    ensures DelayAt(initial, maxDelay, k) == if k == 1 then initial else Min(initial * Pow2(k - 1), maxDelay)
  {
    if k > 1 {
      DelayIsExponential(initial, maxDelay, k - 1);
      assert initial * Pow2(k - 1) == 2 * (initial * Pow2(k - 2)) by {
        Regroup(initial, Pow2(k - 2));
      }
      if k == 2 {
        assert initial * Pow2(0) == initial;
      }
    }
  }

  lemma Regroup(a: nat, b: nat)
    ensures a * (2 * b) == 2 * (a * b)
  {
  }

  /** With an initial delay within the cap, every wait is min(initial * 2^(k-1), cap). */
  lemma {:induction false} CappedDelay(initial: nat, maxDelay: nat, k: nat)
    requires k > 0 && initial <= maxDelay <= MAX_DURATION
    ensures DelayAt(initial, maxDelay, k) == Min(initial * Pow2(k - 1), maxDelay)
  {
    DelayIsExponential(initial, maxDelay, k);
    if k == 1 {
      assert initial * Pow2(0) == initial;
    }
  }

  lemma {:induction false} TotalDelayBound(initial: nat, maxDelay: nat, n: nat)
    requires initial <= maxDelay <= MAX_DURATION
    ensures TotalDelay(initial, maxDelay, n) <= n * maxDelay
  {
    if n > 0 {
      TotalDelayBound(initial, maxDelay, n - 1);
      CappedDelay(initial, maxDelay, n);
      assert n * maxDelay == (n - 1) * maxDelay + maxDelay;
    }
  }

  lemma {:induction false} TotalDelayGrows(initial: nat, maxDelay: nat, m: nat, n: nat)
    requires m <= n
    ensures TotalDelay(initial, maxDelay, m) <= TotalDelay(initial, maxDelay, n)
  {
    if m < n {
      TotalDelayGrows(initial, maxDelay, m, n - 1);
    }
  }

  /** A finite retry budget bounds the time slept, whatever the sink answers. */
  lemma RetryBudget(initial: nat, maxDelay: nat, sleeps: nat, maxRetries: nat)
    requires initial <= maxDelay <= MAX_DURATION && sleeps <= maxRetries
    ensures TotalDelay(initial, maxDelay, sleeps) <= maxRetries * maxDelay
  {
    TotalDelayGrows(initial, maxDelay, sleeps, maxRetries);
    TotalDelayBound(initial, maxDelay, maxRetries);
  }
}
