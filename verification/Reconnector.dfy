/** The reconnect timer: at most one pending, with a doubling delay up to a cap. */
module Reconnector {
  import opened Backoff

  const BASE_MS := 5_000
  const MAX_MS := 300_000

  datatype Timer = Timer(pending: bool, attempt: nat)

  const NEVER := Timer(false, 0)

  function BackoffMs(attempt: nat): int
    requires attempt > 0
  {
    Delay(BASE_MS, MAX_MS, attempt)
  }

  function Scheduled(t: Timer): Timer {
    if t.pending then t else Timer(true, t.attempt + 1)
  }

  function Cancelled(t: Timer): Timer {
    t.(pending := false)
  }

  // The delay starts at the base, never shrinks from one attempt to the next, doubles exactly until it
  // would pass the cap, and stays at the cap from the seventh attempt on.
  lemma BackoffShape(attempt: nat)
    requires attempt > 0
    ensures BASE_MS <= BackoffMs(attempt) <= BackoffMs(attempt + 1) <= MAX_MS
    ensures attempt < 6 ==> BackoffMs(attempt + 1) == 2 * BackoffMs(attempt)
    ensures BackoffMs(attempt) == MAX_MS <==> attempt >= 7
  {
    if attempt >= 7 {
      Pow2Grows(6, attempt - 1);
      assert Pow2(6) == 64;
    } else {
      assert Pow2(0) == 1 && Pow2(1) == 2 && Pow2(2) == 4 && Pow2(3) == 8 && Pow2(4) == 16 && Pow2(5) == 32;
    }
  }

  // `timer` is the pending timeout, if any: here its delay.
  class Reconnector {
    var timer: int
    var attempt: nat

    ghost function View(): Timer reads this {
      Timer(timer != 0, attempt)
    }

    ghost predicate Valid() reads this {
      timer != 0 ==> attempt > 0 && timer == BackoffMs(attempt)
    }

    constructor ()
      ensures Valid() && View() == NEVER
    {
      timer, attempt := 0, 0;
    }

    // `closed` and `disconnected` may both report one drop, so a pending timer is left alone; `delay` is 0 then.
    method Schedule() returns (delay: int)
      requires Valid()
      modifies this
      ensures Valid() && View() == Scheduled(old(View()))
      ensures delay == if old(timer) != 0 then 0 else timer
      ensures timer != 0 && (old(timer) != 0 ==> timer == old(timer))
    {
      if timer != 0 {
        return 0;
      }
      attempt := attempt + 1;
      delay := BackoffMs(attempt);
      BackoffShape(attempt);
      timer := delay;
    }

    // The timeout elapsed: the timer is free again before the callback runs.
    method Fire()
      requires Valid() && timer != 0
      modifies this
      ensures Valid() && View() == Cancelled(old(View()))
    {
      timer := 0;
    }

    method Cancel()
      requires Valid()
      modifies this
      ensures Valid() && View() == Cancelled(old(View()))
    {
      timer := 0;
    }

    method Reset()
      requires Valid()
      modifies this
      ensures Valid() && View() == NEVER
    {
      Cancel();
      attempt := 0;
    }
  }
}
