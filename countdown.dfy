/**
 * Integer arithmetic of the per-level countdown: the seconds shown after a
 * given number of elapsed milliseconds, and the low-time warning threshold.
 */
module Countdown {

  /** `Math.ceil(a / b)` for a positive divisor, on integers. */
  function CeilDiv(a: int, b: int): (q: int)
    requires b > 0
    ensures (q - 1) * b < a <= q * b
  {
    var m := (-a) / b;
    assert -a == b * m + (-a) % b;
    -m
  }

  /** `Math.max(0, Math.ceil((totalMs - elapsedMs) / 1000))`: whole seconds left, rounded up. */
  function RemainingSeconds(totalMs: nat, elapsedMs: int): (seconds: nat)
    ensures seconds == 0 <==> elapsedMs >= totalMs
    ensures seconds > 0 ==> (seconds - 1) * 1000 < totalMs - elapsedMs <= seconds * 1000
  {
    var c := CeilDiv(totalMs - elapsedMs, 1000);
    if c > 0 then c else 0
  }

  /** With no time elapsed the display starts at the full limit. */
  lemma FullTimeAtStart(limit: nat)
    ensures RemainingSeconds(limit * 1000, 0) == limit
  {
    var r := RemainingSeconds(limit * 1000, 0);
    if limit > 0 {
      assert (r - 1) * 1000 < limit * 1000 <= r * 1000;
      assert r - 1 < limit;
      assert limit <= r;
    }
  }

  /** Once the clock has started, the seconds left never exceed the limit. */
  lemma RemainingWithinLimit(limit: nat, elapsedMs: nat)
    ensures RemainingSeconds(limit * 1000, elapsedMs) <= limit
  {
    var r := RemainingSeconds(limit * 1000, elapsedMs);
    if r > 0 {
      assert (r - 1) * 1000 < limit * 1000;
      assert r - 1 < limit;
    }
  }

  /** The display only counts down: more elapsed time never shows more seconds. */
  lemma RemainingNonIncreasing(totalMs: nat, earlier: int, later: int)
    requires earlier <= later
    ensures RemainingSeconds(totalMs, later) <= RemainingSeconds(totalMs, earlier)
  {
    var r1 := RemainingSeconds(totalMs, earlier);
    var r2 := RemainingSeconds(totalMs, later);
    if r2 > 0 {
      assert (r2 - 1) * 1000 < totalMs - later <= totalMs - earlier <= r1 * 1000;
      assert r2 - 1 < r1;
    }
  }

  /** `Math.ceil(limit / 3)`: at or below this many seconds the display turns to the warning colour. */
  function LowTimeThreshold(limitSeconds: nat): (t: nat)
    ensures limitSeconds <= 3 * t
    ensures t > 0 ==> 3 * (t - 1) < limitSeconds
  {
    CeilDiv(limitSeconds, 3)
  }

  predicate IsLowTime(timeLeft: nat, limitSeconds: nat)
  {
    timeLeft <= LowTimeThreshold(limitSeconds)
  }
}
