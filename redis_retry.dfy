/**
 * The store client's reconnect back-off (server/lib/redis.js,
 * `reconnectStrategy`): after more than ten retries it gives up with an
 * error; otherwise it waits `min(retries * 100, 3000)` milliseconds.
 */
module RedisRetry {

  datatype Retry = GiveUp | Wait(ms: nat)

  const MaxRetries: nat := 10
  const StepMs: nat := 100
  const CapMs: nat := 3000

  function Min(a: int, b: int): int
  {
    if a <= b then a else b
  }

  /**
   * `reconnectStrategy(retries)`. Whenever it waits, `retries` is at most
   * ten, so the wait is exactly `retries * 100` and at most one second: the
   * 3000 ms cap is never reached and the growth is linear.
   */
  function ReconnectStrategy(retries: nat): (r: Retry)
    ensures r.GiveUp? <==> retries > MaxRetries
    ensures r.Wait? ==> r.ms == retries * StepMs <= 1000 < CapMs
  {
    if retries > MaxRetries then GiveUp else Wait(Min(retries * StepMs, CapMs))
  }

  /** Waits never shrink as retries grow, until the strategy gives up. */
  lemma WaitsGrow(a: nat, b: nat)
    requires a <= b <= MaxRetries
    ensures ReconnectStrategy(a).ms <= ReconnectStrategy(b).ms
  {
  }
}
