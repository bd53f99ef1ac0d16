/** Capped exponential delays, as the reconnect timer and the outbox use them. */
module Backoff {

  function Pow2(n: nat): (r: nat)
    ensures r > 0
  {
    if n == 0 then 1 else 2 * Pow2(n - 1)
  }

  function Min(a: int, b: int): int {
    if a < b then a else b
  }

  function Delay(base: int, max: int, attempt: nat): int
    requires attempt > 0
  {
    Min(base * Pow2(attempt - 1), max)
  }

  lemma {:induction false} Pow2Grows(m: nat, n: nat)
    requires m <= n
    ensures Pow2(m) <= Pow2(n)
  {
    if m < n { Pow2Grows(m, n - 1); }
  }
}
