/** Decimal quantization: the rounding modes the repository passes to `Decimal.quantize`. */
module Rounding {

  datatype Mode = HalfUp | Floor | Ceiling

  function FloorInt(x: real): (n: int)
    ensures n as real <= x < n as real + 1.0
  {
    x.Floor
  }

  function CeilingInt(x: real): (n: int)
    ensures n as real - 1.0 < x <= n as real
  {
    -FloorInt(-x)
  }

  /** ROUND_HALF_UP: to the nearest integer, ties away from zero. */
  function HalfUpInt(x: real): (n: int)
    ensures x >= 0.0 ==> n as real - 0.5 <= x < n as real + 0.5
    ensures x < 0.0 ==> n as real - 0.5 < x <= n as real + 0.5
  {
    if x >= 0.0 then FloorInt(x + 0.5) else CeilingInt(x - 0.5)
  }

  /** Rounding to whole units (`round_temperature` at precision 0). */
  function RoundWhole(x: real, mode: Mode): int {
    match mode
    case HalfUp => HalfUpInt(x)
    case Floor => FloorInt(x)
    case Ceiling => CeilingInt(x)
  }

  /** Floor and ceiling bracket x from their sides; half-up is nearest, and a tie goes away from zero. */
  lemma RoundWholeMeaning(x: real)
    ensures RoundWhole(x, Floor) as real <= x < RoundWhole(x, Floor) as real + 1.0
    ensures RoundWhole(x, Ceiling) as real - 1.0 < x <= RoundWhole(x, Ceiling) as real
    ensures var off := RoundWhole(x, HalfUp) as real - x;
      && -0.5 <= off <= 0.5
      && (off == 0.5 ==> x > 0.0) && (off == -0.5 ==> x < 0.0)
  {
    assert RoundWhole(x, Floor) == FloorInt(x);
    assert RoundWhole(x, Ceiling) == CeilingInt(x);
  }

  /** An integer within half a unit of x, on the side ROUND_HALF_UP prefers, is its rounding. */
  lemma HalfUpUnique(x: real, n: int)
    requires x >= 0.0 && n as real - 0.5 <= x < n as real + 0.5
    ensures HalfUpInt(x) == n
  {
  }

  /** k share quanta of 0.00000001. */
  function Ticks(k: int): (r: real) {
    k as real / 100000000.0
  }

  /** `quantize(Decimal("0.00000001"), ROUND_DOWN)` of a non-negative amount. */
  function Down8(x: real): real
    requires x >= 0.0
  {
    Ticks(FloorInt(x * 100000000.0))
  }

  /** The least multiple of the quantum not below x. */
  function Up8(x: real): real {
    Ticks(CeilingInt(x * 100000000.0))
  }

  ghost predicate IsMultiple8(x: real) {
    exists k: int :: x == Ticks(k)
  }

  /** Down8(x) is the largest multiple of the quantum not above x. */
  lemma Down8Largest(x: real)
    requires x >= 0.0
    ensures IsMultiple8(Down8(x))
    ensures 0.0 <= Down8(x) <= x < Down8(x) + Ticks(1)
    ensures forall y :: IsMultiple8(y) && y <= x ==> y <= Down8(x)
  {
    var k := FloorInt(x * 100000000.0);
    assert Down8(x) == Ticks(k);
    forall y | IsMultiple8(y) && y <= x ensures y <= Down8(x) {
      var j: int :| y == Ticks(j);
      assert j as real <= x * 100000000.0;
      assert j <= k;
    }
  }

  /** Rounding down stays at or above m exactly when the amount reaches m rounded up. */
  lemma Down8AtLeast(x: real, m: real)
    requires x >= 0.0
    ensures Down8(x) >= m <==> x >= Up8(m)
  {
    var k, c := FloorInt(x * 100000000.0), CeilingInt(m * 100000000.0);
    if Down8(x) >= m {
      assert k as real >= m * 100000000.0;
      assert k >= c;
    }
    if x >= Up8(m) {
      assert x * 100000000.0 >= c as real;
      assert k >= c;
    }
  }

  lemma Up8OfMultiple(m: real)
    requires IsMultiple8(m)
    ensures Up8(m) == m
  {
    var k: int :| m == Ticks(k);
    assert m * 100000000.0 == k as real;
    assert CeilingInt(m * 100000000.0) == k;
  }
}
