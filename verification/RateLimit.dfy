/**
 * Counting what a counter with a timed pause lets through: `limit` uses, then a pause of at least `period` after
 * the last of them. The operator lock-out and the circuit breaker are both of this kind.
 */
module RateLimit {
  import opened Division

  /** The uses still possible up to `end`, from time `from` on, when `used` of the current batch are spent. */
  function Allowance(limit: nat, period: nat, used: nat, from: int, end: int): int
    requires period > 0
  {
    if end < from then 0 else limit * ((end - from) / period + 1) - used
  }

  /** Waiting never adds to the allowance. */
  lemma LaterIsLess(limit: nat, period: nat, used: nat, from: int, later: int, end: int)
    requires period > 0 && used <= limit && from <= later
    ensures 0 <= Allowance(limit, period, used, later, end) <= Allowance(limit, period, used, from, end)
  {
    if later <= end {
      DivMono(end - later, end - from, period);
      TimesMono(limit, 1, (end - later) / period + 1);
      TimesMono(limit, (end - later) / period + 1, (end - from) / period + 1);
    } else if from <= end {
      DivMono(0, end - from, period);
      TimesMono(limit, 1, (end - from) / period + 1);
    }
  }

  /** A use inside a batch takes one from the allowance. */
  lemma UseOne(limit: nat, period: nat, used: nat, from: int, end: int)
    requires period > 0 && used + 1 <= limit && from <= end
    ensures 1 + Allowance(limit, period, used + 1, from, end) == Allowance(limit, period, used, from, end)
  {
  }

  /** The last use of a batch, followed by the pause. */
  lemma UseLast(limit: nat, period: nat, from: int, paused: int, end: int)
    requires period > 0 && limit > 0 && from <= end && from <= paused
    ensures 1 + Allowance(limit, period, 0, paused + period, end) <= Allowance(limit, period, limit - 1, from, end)
  {
    var a := end - from;
    DivMono(0, a, period);
    LaterIsLess(limit, period, 0, from + period, paused + period, end);
    if from + period <= end {
      DivLess(a, period);
      assert limit * (a / period + 1) == limit * (a / period) + limit;
    } else {
      TimesMono(limit, 1, a / period + 1);
    }
  }
}
