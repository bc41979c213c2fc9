/** The watcher's reconnect delays, in nanoseconds. */
module Backoff {
  import opened Common

  const NANOS_PER_MILLI: nat := 1_000_000

  function Pow2(k: nat): nat { if k == 0 then 1 else 2 * Pow2(k - 1) }

  /** The delay before jitter after `k` failures in a row. */
  function Base(min: nat, max: nat, k: nat): nat {
    if k == 0 then min else Min(min * Pow2(k), max)
  }

  lemma BaseDoubles(min: nat, max: nat, k: nat)
    ensures Min(Base(min, max, k) * 2, max) == Base(min, max, k + 1)
  {
    assert min * Pow2(k + 1) == 2 * (min * Pow2(k));
  }

  /** The first delay is capped like the others exactly when the configured minimum is not
      above the maximum. */
  lemma BaseIsCapped(min: nat, max: nat)
    ensures (forall k :: Base(min, max, k) == Min(min * Pow2(k), max)) <==> min <= max
  {
    assert Base(min, max, 0) == min && min * Pow2(0) == min;
  }

  /** `nanos` is the sub-second part of the wall clock. */
  function JitterMillis(backoff: nat, nanos: nat): nat {
    var maxJitter := backoff / NANOS_PER_MILLI / 4;
    if maxJitter == 0 then 0 else nanos % maxJitter
  }

  function Wait(backoff: nat, nanos: nat): nat { backoff + JitterMillis(backoff, nanos) * NANOS_PER_MILLI }

  /** The jitter is the clock reading's nanoseconds taken modulo a quarter of the delay in whole
      milliseconds, so every number of milliseconds below that quarter occurs. */
  lemma JitterCoversQuarter(backoff: nat, nanos: nat, j: nat)
    ensures 4_000_000 > backoff ==> Wait(backoff, nanos) == backoff
    ensures 4_000_000 * (j + 1) <= backoff ==> Wait(backoff, j) == backoff + 1_000_000 * j
    ensures 4_000_000 <= backoff ==> exists q: nat ::
              nanos == q * (backoff / 1_000_000 / 4) + (Wait(backoff, nanos) - backoff) / 1_000_000
  {
    var quarter := backoff / 1_000_000 / 4;
    if 4_000_000 * (j + 1) <= backoff {
      assert j < quarter;
    }
    if 4_000_000 <= backoff {
      assert nanos == nanos / quarter * quarter + nanos % quarter;
    }
  }

  /** Jitter never shortens a delay and adds less than a quarter of it, except to a zero delay. */
  lemma WaitWithinQuarter(backoff: nat, nanos: nat)
    ensures backoff <= Wait(backoff, nanos)
    ensures 4 * (Wait(backoff, nanos) - backoff) <= backoff
  {
    var maxJitter := backoff / 1_000_000 / 4;
    var jitter := JitterMillis(backoff, nanos);
    assert jitter <= maxJitter;
    assert 4 * maxJitter * 1_000_000 <= backoff;
  }
}
