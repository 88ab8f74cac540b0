/**
 * The price event of a crypto contract, decided twice: per sampled path by the forecast
 * (app/services/crypto_probability.py) and once at settlement (app/services/paper.py).
 */
module CryptoEvent {
  import opened Outcomes
  import opened Products
  import opened Rounding

  datatype Comparison = Above | Below | Up | Down

  /** A decimal, positive when valid: coefficient * 10^exponent, the exponent being what `quantize` reads. */
  datatype Increment = Increment(coefficient: int, exponent: int) {
    predicate Valid() { coefficient > 0 }

    function Value(): real { coefficient as real * Pow10(exponent) }
  }

  function Pow10(e: int): (r: real)
    ensures r > 0.0
    decreases if e < 0 then -e else e
  {
    if e == 0 then 1.0 else if e > 0 then 10.0 * Pow10(e - 1) else Pow10(e + 1) / 10.0
  }

  /** The terms both sides read. The parser sets a threshold for above/below and a reference price for up/down. */
  datatype Terms = Terms(
    comparison: Comparison, inclusive: bool, threshold: Option<real>, reference: Option<real>, increment: Increment)
  {
    predicate Valid() {
      && increment.Valid()
      && (if comparison.Above? || comparison.Below? then threshold.Some? && reference.None?
          else threshold.None? && reference.Some?)
    }
  }

  /** `price.quantize(increment, ROUND_HALF_UP)`: only the increment's exponent matters. */
  function Quantize(price: real, increment: Increment): real {
    HalfUpInt(price / Pow10(increment.exponent)) as real * Pow10(increment.exponent)
  }

  /** `(price / increment).quantize(1, ROUND_HALF_UP) * increment`. */
  function RoundToMultiple(price: real, increment: Increment): real
    requires increment.Valid()
  {
    HalfUpInt(price / increment.Value()) as real * increment.Value()
  }

  /** The forecast compares with the threshold if there is one, and otherwise with the reference price. */
  function ForecastTarget(t: Terms): Option<real> {
    if t.threshold.Some? then t.threshold else t.reference
  }

  predicate ForecastHit(t: Terms, target: real, price: real) {
    Hits(t, target, Quantize(price, t.increment))
  }

  /** The comparison itself, on a final price. */
  predicate Hits(t: Terms, target: real, final: real) {
    if t.comparison.Above? || t.comparison.Up? then (if t.inclusive then final >= target else final > target)
    else (if t.inclusive then final <= target else final < target)
  }

  /** Settlement picks the boundary by comparison; None is its "comparison reference is invalid" error. */
  function SettlementYes(t: Terms, price: real): Option<bool>
    requires t.increment.Valid()
  {
    var rounded := RoundToMultiple(price, t.increment);
    var boundary := if t.comparison.Up? || t.comparison.Down? then t.reference else t.threshold;
    if boundary.None? then None
    else if t.comparison.Above? || t.comparison.Up? then
      Some(if t.inclusive then rounded >= boundary.value else rounded > boundary.value)
    else
      Some(if t.inclusive then rounded <= boundary.value else rounded < boundary.value)
  }

  // ---- The event in its own terms ----

  /** m is the multiple of v nearest to a positive price, the upper one of two. */
  ghost predicate NearestMultiple(price: real, v: real, m: real) {
    exists n: int :: IsNear(price, v, m, n)
  }

  ghost predicate IsNear(price: real, v: real, m: real, n: int) {
    m == Times(n as real, v) && m - v / 2.0 <= price < m + v / 2.0
  }

  /** The value is on the side of the boundary that the contract asks for. */
  ghost predicate Satisfies(comparison: Comparison, inclusive: bool, value: real, boundary: real) {
    match comparison
    case Above => value > boundary || (inclusive && value == boundary)
    case Up => value > boundary || (inclusive && value == boundary)
    case Below => value < boundary || (inclusive && value == boundary)
    case Down => value < boundary || (inclusive && value == boundary)
  }

  /** The boundary of the contract: the reference price of an up or down contract, the threshold of the others. */
  ghost predicate HasBoundary(t: Terms, boundary: real) {
    match t.comparison
    case Up => t.reference == Some(boundary)
    case Down => t.reference == Some(boundary)
    case Above => t.threshold == Some(boundary)
    case Below => t.threshold == Some(boundary)
  }

  /** Rounding to a multiple gives the nearest one. */
  lemma RoundsToNearest(price: real, increment: Increment, m: real)
    requires increment.Valid() && price > 0.0
    ensures NearestMultiple(price, increment.Value(), m) <==> m == RoundToMultiple(price, increment)
  {
    var v := increment.Value();
    assert v > 0.0 by { PositiveProduct(increment.coefficient as real, Pow10(increment.exponent)); }
    var x := price / v;
    var k := HalfUpInt(x);
    assert x >= 0.0 by { PositiveQuotient(price, v); }
    WithinHalf(price, v, k);
    var near := Times(k as real, v);
    assert RoundToMultiple(price, increment) == near;
    hide Times, RoundToMultiple;
    assert IsNear(price, v, near, k);
    if NearestMultiple(price, v, m) {
      var n: int :| IsNear(price, v, m, n);
      OnlyOneNear(price, v, n, k);
    }
  }

  lemma PositiveQuotient(a: real, b: real)
    requires a > 0.0 && b > 0.0
    ensures a / b > 0.0
  {
  }

  lemma WithinHalf(price: real, v: real, k: int)
    requires v > 0.0 && k as real - 0.5 <= price / v < k as real + 0.5
    ensures Times(k as real, v) - v / 2.0 <= price < Times(k as real, v) + v / 2.0
  {
    hide Times;
    Quotient(price, v);
    HalfTimes(v);
    Mono(v, k as real - 0.5, price / v);
    Distribute(k as real, -0.5, v);
    TimesNegative(0.5, v);
    Distribute(k as real, 0.5, v);
    TimesStrict(price / v, k as real + 0.5, v);
  }

  lemma TimesStrict(a: real, b: real, q: real)
    requires q > 0.0 && a < b
    ensures Times(a, q) < Times(b, q)
  {
    PositiveProduct(b - a, q);
  }

  lemma OnlyOneNear(price: real, v: real, n: int, k: int)
    requires v > 0.0
    requires Times(n as real, v) - v / 2.0 <= price < Times(n as real, v) + v / 2.0
    requires Times(k as real, v) - v / 2.0 <= price < Times(k as real, v) + v / 2.0
    ensures n == k
  {
    hide Times;
    Units(v);
    if n < k {
      Mono(v, 1.0, (k - n) as real);
      Distribute(n as real, (k - n) as real, v);
    } else if k < n {
      Mono(v, 1.0, (n - k) as real);
      Distribute(k as real, (n - k) as real, v);
    }
  }

  /** Settlement answers YES exactly when the nearest multiple satisfies the comparison with the contract's boundary. */
  lemma SettlementMeaning(t: Terms, price: real, m: real, boundary: real)
    requires t.increment.Valid() && price > 0.0
    requires NearestMultiple(price, t.increment.Value(), m)
    ensures HasBoundary(t, boundary) ==> SettlementYes(t, price) == Some(Satisfies(t.comparison, t.inclusive, m, boundary))
    ensures SettlementYes(t, price).Some? <==> exists b :: HasBoundary(t, b)
  {
    hide RoundToMultiple, NearestMultiple;
    RoundsToNearest(price, t.increment, m);
    if SettlementYes(t, price).Some? {
      assert HasBoundary(t, if t.comparison.Up? || t.comparison.Down? then t.reference.value else t.threshold.value);
    }
  }

  /** The forecast rounds to the nearest multiple of the increment's power of ten and asks the same comparison. */
  lemma ForecastMeaning(t: Terms, target: real, price: real, m: real)
    requires price > 0.0 && NearestMultiple(price, Pow10(t.increment.exponent), m)
    ensures ForecastHit(t, target, price) <==> Satisfies(t.comparison, t.inclusive, m, target)
    ensures Quantize(price, t.increment) == m
  {
    hide Quantize, RoundToMultiple, NearestMultiple, Pow10, Hits, Satisfies;
    var unit := Increment(1, t.increment.exponent);
    UnitValue(t.increment.exponent);
    RoundsToNearest(price, unit, m);
    PowerOfTenRoundsAlike(unit, price);
    SameExponent(price, unit, t.increment);
    CompareMeaning(t, target, m);
  }

  lemma UnitValue(e: int)
    ensures Increment(1, e).Value() == Pow10(e)
  {
  }

  lemma SameExponent(price: real, a: Increment, b: Increment)
    requires a.exponent == b.exponent
    ensures Quantize(price, a) == Quantize(price, b)
  {
  }

  lemma CompareMeaning(t: Terms, target: real, final: real)
    ensures Hits(t, target, final) <==> Satisfies(t.comparison, t.inclusive, final, target)
  {
  }

  /** A final price counts exactly when it satisfies the comparison; an unrounded one is compared as it is. */
  lemma HitMeaning(t: Terms, target: real, price: real)
    ensures Hits(t, target, Final(price, None)) <==> Satisfies(t.comparison, t.inclusive, price, target)
  {
  }

  /** The forecast's target is the boundary of any contract the parser builds. */
  lemma TargetMeaning(t: Terms, boundary: real)
    requires t.Valid()
    ensures ForecastTarget(t) == Some(boundary) <==> HasBoundary(t, boundary)
  {
  }

  // ---- Two roundings ----

  /** The two roundings coincide on every price exactly when the increment is a power of ten. */
  lemma RoundingsAgreeIff(increment: Increment)
    requires increment.Valid()
    ensures (forall p :: p > 0.0 ==> Quantize(p, increment) == RoundToMultiple(p, increment))
      <==> increment.coefficient == 1
  {
    hide Quantize, RoundToMultiple, Pow10;
    if increment.coefficient != 1 {
      RoundingsDiffer(increment);
      assert Pow10(increment.exponent) > 0.0;
    } else {
      forall p | p > 0.0 ensures Quantize(p, increment) == RoundToMultiple(p, increment) {
        PowerOfTenRoundsAlike(increment, p);
      }
    }
  }

  lemma PowerOfTenRoundsAlike(increment: Increment, price: real)
    requires increment.coefficient == 1
    ensures Quantize(price, increment) == RoundToMultiple(price, increment)
  {
    assert increment.Value() == Pow10(increment.exponent);
  }

  /** On any other increment the price 10^exponent is kept by one rounding and moved by the other. */
  lemma RoundingsDiffer(increment: Increment)
    requires increment.coefficient > 1
    ensures Quantize(Pow10(increment.exponent), increment) == Pow10(increment.exponent)
    ensures RoundToMultiple(Pow10(increment.exponent), increment) ==
      if increment.coefficient == 2 then increment.Value() else 0.0
    ensures increment.Value() > Pow10(increment.exponent)
  {
    hide Pow10, HalfUpInt;
    var q, c := Pow10(increment.exponent), increment.coefficient as real;
    OneWhole(q);
    RatioOfMultiple(q, c, increment.Value());
    if increment.coefficient == 2 {
      HalfRoundsUp(q / increment.Value(), increment.Value());
    } else {
      LessRoundsDown(q / increment.Value(), increment.Value());
    }
  }

  lemma OneWhole(q: real)
    requires q > 0.0
    ensures HalfUpInt(q / q) as real * q == q
  {
    assert q / q == 1.0;
    HalfUpUnique(1.0, 1);
  }

  lemma HalfRoundsUp(x: real, v: real)
    requires x == 0.5
    ensures HalfUpInt(x) as real * v == v
  {
    HalfUpUnique(x, 1);
  }

  lemma LessRoundsDown(x: real, v: real)
    requires 0.0 < x < 0.5
    ensures HalfUpInt(x) as real * v == 0.0
  {
    HalfUpUnique(x, 0);
  }

  lemma RatioOfMultiple(q: real, c: real, v: real)
    requires q > 0.0 && c >= 2.0 && v == c * q
    ensures v > q
    ensures c == 2.0 ==> q / v == 0.5
    ensures c >= 3.0 ==> 0.0 < q / v < 0.5
  {
    hide Times;
    var x := q / v;
    VIsProduct(c, q, v);
    Mono(q, 2.0, c);
    Double(q);
    Quotient(q, v);
    assert v >= 2.0 * q;
    if c >= 3.0 {
      Mono(q, 3.0, c);
      Triple(q);
      Double(v);
      // x * v == q lies strictly between 0 and v / 2.
      HalfTimes(v);
      NotAtLeast(x, 0.5, v);
      Units(v);
      NotAtLeast(0.0, x, v);
    } else if c == 2.0 {
      HalfTimes(v);
      Cancel(x, 0.5, v);
      Cancel(0.5, x, v);
    }
  }

  lemma VIsProduct(c: real, q: real, v: real)
    requires v == c * q
    ensures v == Times(c, q)
  {
  }

  lemma Double(q: real)
    ensures Times(2.0, q) == 2.0 * q
  {
  }

  lemma Triple(q: real)
    ensures Times(3.0, q) == 3.0 * q
  {
  }

  lemma HalfTimes(v: real)
    ensures Times(0.5, v) == v / 2.0
  {
  }

  lemma NotAtLeast(a: real, b: real, q: real)
    requires q > 0.0 && Times(a, q) < Times(b, q)
    ensures a < b
  {
    assert (b - a) * q > 0.0;
  }

  /** Forecast and settlement agree on a contract's event at a price. */
  ghost predicate Agree(t: Terms, price: real)
    requires t.Valid()
  {
    ForecastTarget(t).Some? && SettlementYes(t, price) == Some(ForecastHit(t, ForecastTarget(t).value, price))
  }

  /**
   * Forecast and settlement decide the same event, for every comparison, inclusiveness, boundary and positive
   * price, exactly for the increments that are powers of ten.
   */
  lemma EventsAgreeIff(increment: Increment)
    requires increment.Valid()
    ensures (forall t: Terms, p :: t.Valid() && t.increment == increment && p > 0.0 ==> Agree(t, p))
      <==> increment.coefficient == 1
  {
    RoundingsAgreeIff(increment);
    if increment.coefficient == 1 {
      forall t: Terms, p | t.Valid() && t.increment == increment && p > 0.0 ensures Agree(t, p) {
        assert Quantize(p, increment) == RoundToMultiple(p, increment);
      }
    } else {
      // Ask for exactly the price the two roundings disagree on.
      var q := Pow10(increment.exponent);
      RoundingsDiffer(increment);
      var t := if increment.coefficient == 2 then Terms(Below, true, Some(q), None, increment)
               else Terms(Above, true, Some(q), None, increment);
      assert t.Valid() && !Agree(t, q);
    }
  }

  /** The three increments `_parse_rounding` can return: a dollar, a tenth, a cent. */
  function ParsedIncrements(): seq<Increment> {
    [Increment(1, 0), Increment(1, -1), Increment(1, -2)]
  }

  lemma ParsedContractsAgree(t: Terms, price: real)
    requires t.Valid() && t.increment in ParsedIncrements() && price > 0.0
    ensures Agree(t, price)
    ensures t.increment.Value() in [1.0, 0.1, 0.01]
  {
    EventsAgreeIff(t.increment);
    assert Pow10(-1) == Pow10(0) / 10.0 && Pow10(-2) == Pow10(-1) / 10.0;
  }

  /** How many of the sampled final prices would resolve YES at settlement. */
  function CountYes(t: Terms, prices: seq<real>): nat
    requires t.increment.Valid()
  {
    if prices == [] then 0
    else CountYes(t, prices[..|prices| - 1]) + (if SettlementYes(t, prices[|prices| - 1]) == Some(true) then 1 else 0)
  }

  /** The final price as the forecast compares it; without an increment it is not rounded. */
  function Final(price: real, rounding: Option<Increment>): real {
    if rounding.Some? then Quantize(price, rounding.value) else price
  }

  function CountHits(t: Terms, target: real, rounding: Option<Increment>, prices: seq<real>): (r: nat)
    ensures r <= |prices|
  {
    if prices == [] then 0
    else
      var n := |prices| - 1;
      CountHits(t, target, rounding, prices[..n]) + (if Hits(t, target, Final(prices[n], rounding)) then 1 else 0)
  }

  /** With the contract's own increment, when that is a power of ten, the hits are the paths that would resolve YES. */
  lemma {:induction false} HitsResolveYes(t: Terms, prices: seq<real>)
    requires t.Valid() && t.increment.coefficient == 1 && forall p :: p in prices ==> p > 0.0
    ensures CountHits(t, ForecastTarget(t).value, Some(t.increment), prices) == CountYes(t, prices)
  {
    hide Hits, SettlementYes, Quantize;
    if prices != [] {
      var front, p := prices[..|prices| - 1], prices[|prices| - 1];
      assert p in prices && forall q :: q in front ==> q in prices;
      HitsResolveYes(t, front);
      EventsAgreeIff(t.increment);
      assert Agree(t, p);
    }
  }

  datatype EventError = TargetRequired | IncrementNotPositive | NoPaths

  /** The hit-counting loop; the final prices `current_price * exp(r)` of the sampled paths are taken as given. */
  method EventProbability(t: Terms, rounding: Option<Increment>, prices: seq<real>)
    returns (r: Result<real, EventError>)
    ensures var target := ForecastTarget(t);
      r == if target.None? then Err(TargetRequired)
        else if prices == [] then Err(NoPaths)
        else if rounding.Some? && !rounding.value.Valid() then Err(IncrementNotPositive)
        else Ok(CountHits(t, target.value, rounding, prices) as real / |prices| as real)
    ensures
      t.Valid() && rounding == Some(t.increment) && t.increment.coefficient == 1 && prices != []
      && (forall p :: p in prices ==> p > 0.0) ==>
        r == Ok(CountYes(t, prices) as real / |prices| as real)
  {
    hide Hits, SettlementYes, CountYes, Quantize;
    var target := ForecastTarget(t);
    if target.None? {
      return Err(TargetRequired);
    }
    var hits := 0;
    for i := 0 to |prices|
      invariant hits == CountHits(t, target.value, rounding, prices[..i])
      invariant i > 0 ==> rounding.None? || rounding.value.Valid()
    {
      assert prices[..i + 1][..i] == prices[..i];
      var final := prices[i];
      if rounding.Some? {
        if rounding.value.coefficient <= 0 {
          return Err(IncrementNotPositive);
        }
        final := Quantize(final, rounding.value);
      }
      if Hits(t, target.value, final) {
        hits := hits + 1;
      }
    }
    assert prices[..|prices|] == prices;
    if prices == [] {
      // Python divides zero by zero here.
      return Err(NoPaths);
    }
    if t.Valid() && t.increment.coefficient == 1 && forall p :: p in prices ==> p > 0.0 {
      HitsResolveYes(t, prices);
    }
    return Ok(hits as real / |prices| as real);
  }
}
