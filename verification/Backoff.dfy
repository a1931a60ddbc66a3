// Exponential retry backoff shared by the job processor and stale-worker recovery.
module Backoff {
  import opened Wrappers

  datatype RetryConfig = RetryConfig(baseDelayMs: nat, maxDelayMs: nat)

  // The configurations that readWorkerConfig and both service factories accept.
  type ValidRetryConfig = c: RetryConfig | 1 <= c.baseDelayMs <= c.maxDelayMs
    witness RetryConfig(1_000, 300_000)

  datatype BackoffError = BadAttemptCount | BadBaseDelay | BadMaxDelay | MaxBelowBase

  function Pow2(n: nat): (r: nat)
    ensures r >= 1
  {
    if n == 0 then 1 else 2 * Pow2(n - 1)
  }

  function CalculateRetryDelayMs(attemptCount: int, baseDelayMs: int, maxDelayMs: int): (r: Result<int, BackoffError>)
    ensures r.Success? <==> attemptCount >= 1 && 1 <= baseDelayMs <= maxDelayMs
  {
    if attemptCount < 1 then Failure(BadAttemptCount)
    else if baseDelayMs <= 0 then Failure(BadBaseDelay)
    else if maxDelayMs <= 0 then Failure(BadMaxDelay)
    else if maxDelayMs < baseDelayMs then Failure(MaxBelowBase)
    else
      var exponentialDelay := baseDelayMs * Pow2(attemptCount - 1);
      Success(if exponentialDelay <= maxDelayMs then exponentialDelay else maxDelayMs)
  }

  // The delay after attempt n fails, once the configuration has been validated.
  function RetryDelay(config: ValidRetryConfig, n: nat): int
    requires n >= 1
  {
    CalculateRetryDelayMs(n, config.baseDelayMs, config.maxDelayMs).value
  }

  // The total waiting time the policy imposes before attempt n.
  function TotalDelay(config: ValidRetryConfig, n: nat): int {
    if n <= 1 then 0 else TotalDelay(config, n - 1) + RetryDelay(config, n - 1)
  }

  // The first delay is the base; each later one doubles its predecessor until the cap holds it.
  lemma {:induction false} DelayDoublesUntilCapped(config: ValidRetryConfig, n: nat)
    requires n >= 1
    ensures RetryDelay(config, 1) == config.baseDelayMs
    ensures RetryDelay(config, n + 1) ==
            if 2 * RetryDelay(config, n) <= config.maxDelayMs then 2 * RetryDelay(config, n) else config.maxDelayMs
    ensures config.baseDelayMs <= RetryDelay(config, n) <= RetryDelay(config, n + 1) <= config.maxDelayMs
  {
    var base, p := config.baseDelayMs, Pow2(n - 1);
    assert Pow2(n) == 2 * p;
    assert base * (2 * p) == 2 * (base * p);
    assert base * p >= base by {
      assert base * p - base == base * (p - 1);
    }
  }

  // While the cap is not reached the waits before attempt n sum to base * (2^(n-1) - 1).
  lemma {:induction false} UncappedTotalDelay(config: ValidRetryConfig, n: nat)
    requires n >= 1
    requires n >= 2 ==> config.baseDelayMs * Pow2(n - 2) <= config.maxDelayMs
    ensures TotalDelay(config, n) == config.baseDelayMs * (Pow2(n - 1) - 1)
  {
    if n >= 2 {
      if n >= 3 {
        ScaleMonotone(config.baseDelayMs, Pow2(n - 3), Pow2(n - 2));
      }
      UncappedTotalDelay(config, n - 1);
      AddScaled(config.baseDelayMs, Pow2(n - 2));
    }
  }

  lemma ScaleMonotone(base: nat, p: nat, q: nat)
    requires p <= q
    ensures base * p <= base * q
  {
  }

  lemma AddScaled(base: nat, p: nat)
    ensures base * (p - 1) + base * p == base * (2 * p - 1)
  {
  }
}
