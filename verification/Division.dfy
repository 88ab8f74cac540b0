/** Integer division by a positive number, for arithmetic the solver does not do unaided. */
module Division {
  lemma TimesMono(limit: nat, a: int, b: int)
    requires a <= b
    ensures limit * a <= limit * b
  {
  }

  lemma Quotient(a: int, period: nat)
    requires period > 0 && a >= 0
    ensures period * (a / period) <= a < period * (a / period + 1)
    ensures a / period >= 0
  {
    assert a == period * (a / period) + a % period;
    assert period * (a / period + 1) == period * (a / period) + period;
    if a / period < 0 {
      TimesMono(period, a / period + 1, 0);
    }
  }

  /** The quotient is the only number of whole periods that fits. */
  lemma QuotientUnique(a: int, period: nat, q: int)
    requires period > 0 && a >= 0 && period * q <= a < period * (q + 1)
    ensures a / period == q
  {
    Quotient(a, period);
    if q < a / period {
      TimesMono(period, q + 1, a / period);
    } else if a / period < q {
      TimesMono(period, a / period + 1, q);
    }
  }

  lemma DivMono(a: int, b: int, period: nat)
    requires period > 0 && 0 <= a <= b
    ensures 0 <= a / period <= b / period
  {
    Quotient(a, period);
    Quotient(b, period);
    if b / period < a / period {
      TimesMono(period, b / period + 1, a / period);
    }
  }

  lemma DivLess(a: int, period: nat)
    requires period > 0 && a >= period
    ensures (a - period) / period + 1 == a / period
  {
    var q := (a - period) / period;
    Quotient(a - period, period);
    assert period * (q + 1) == period * q + period && period * (q + 2) == period * (q + 1) + period;
    QuotientUnique(a, period, q + 1);
  }
}
