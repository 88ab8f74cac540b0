/** Pre-trade sizing (app/services/risk.py). */
module Risk {
  import opened Outcomes
  import opened Products
  import opened Rounding

  datatype RiskLimits = RiskLimits(trade: real, exposure: real, dailyLoss: real) {
    /** What `RiskLimits.__post_init__` demands. */
    predicate Valid() {
      0.0 < trade <= 1.0 && 0.0 < exposure <= 1.0 && 0.0 < dailyLoss <= 1.0
    }
  }

  datatype SizingInput = SizingInput(
    balance: real, price: real, requested: real, currentExposure: real, dailyPnl: real,
    minimum: real, unrealizedPnl: real, assetExposure: real, correlatedExposure: real,
    fees: real, slippage: real, stale: bool)

  datatype RiskDecision = RiskDecision(approved: bool, shares: real, notional: real, reasons: seq<string>)

  datatype RiskError = InvalidInputs | MinimumNotPositive | BelowMarketMinimum

  function Rejected(reason: string): RiskDecision {
    RiskDecision(false, 0.0, 0.0, [reason])
  }

  function InputError(o: SizingInput): Option<RiskError> {
    if o.balance <= 0.0 || o.price <= 0.0 || o.price > 1.0 || o.requested <= 0.0 || o.currentExposure < 0.0
       || o.assetExposure < 0.0 || o.correlatedExposure < 0.0 || o.fees < 0.0 || o.slippage < 0.0
    then Some(InvalidInputs)
    else if o.minimum <= 0.0 then Some(MinimumNotPositive)
    else if o.requested < o.minimum then Some(BelowMarketMinimum)
    else None
  }

  /** The notional that both caps leave for this order. */
  function Allowed(o: SizingInput, limits: RiskLimits): real {
    Min(o.balance * limits.trade, Room(o, limits)) - o.fees - o.slippage
  }

  function Room(o: SizingInput, limits: RiskLimits): real {
    o.balance * limits.exposure - Max(o.currentExposure, o.assetExposure + o.correlatedExposure)
  }

  /** The sizing that follows the gates, for a given notional allowance. */
  function SizeWithin(requested: real, minimum: real, price: real, allowed: real): RiskDecision
    requires price > 0.0 && minimum > 0.0
  {
    var shares := Min(requested, allowed / price);
    if shares < minimum then Rejected("risk_cap_below_minimum")
    else RiskDecision(true, Down8(shares), Down8(shares) * price, [])
  }

  function SizeOrder(o: SizingInput, limits: RiskLimits): Result<RiskDecision, RiskError> {
    var error := InputError(o);
    if error.Some? then Err(error.value)
    else if o.stale then Ok(Rejected("stale_data"))
    else if o.dailyPnl + o.unrealizedPnl - o.fees - o.slippage <= -(o.balance * limits.dailyLoss) then
      Ok(Rejected("daily_loss_cap"))
    else if Room(o, limits) <= 0.0 then Ok(Rejected("exposure_cap"))
    else Ok(SizeWithin(o.requested, o.minimum, o.price, Allowed(o, limits)))
  }

  /** Buying `shares` keeps within the request, the per-trade cap and the exposure cap. */
  ghost predicate Affordable(o: SizingInput, limits: RiskLimits, shares: real) {
    var outlay := Times(shares, o.price) + o.fees + o.slippage;
    && shares <= o.requested
    && outlay <= Times(o.balance, limits.trade)
    && o.currentExposure + outlay <= Times(o.balance, limits.exposure)
    && o.assetExposure + o.correlatedExposure + outlay <= Times(o.balance, limits.exposure)
  }

  /** The day's result, marked to market, has not reached the loss cap. */
  ghost predicate WithinLossCap(o: SizingInput, limits: RiskLimits) {
    o.dailyPnl + o.unrealizedPnl - o.fees - o.slippage > -Times(o.balance, limits.dailyLoss)
  }

  ghost predicate Fits(requested: real, price: real, allowed: real, shares: real) {
    shares <= requested && shares * price <= allowed
  }

  lemma AffordableIsFits(o: SizingInput, limits: RiskLimits, shares: real)
    ensures Affordable(o, limits, shares) <==> Fits(o.requested, o.price, Allowed(o, limits), shares)
  {
    var cost, t, e := shares * o.price, o.balance * limits.trade, o.balance * limits.exposure;
  }

  /** Both tests in one division, as the code performs them. */
  lemma FitsIffBelow(requested: real, price: real, allowed: real, shares: real)
    requires price > 0.0
    ensures Fits(requested, price, allowed, shares) <==> shares <= Min(requested, allowed / price)
  {
    var q := allowed / price;
    assert q * price == allowed;
    if shares <= q {
      assert shares * price <= q * price;
    } else {
      assert (shares - q) * price > 0.0;
    }
  }

  /** What the unrounded quantity of an approval determines. */
  lemma WithinIsLargest(requested: real, minimum: real, price: real, allowed: real)
    requires price > 0.0 && minimum > 0.0
    ensures SizeWithin(requested, minimum, price, allowed).approved <==> Fits(requested, price, allowed, minimum)
    ensures var d := SizeWithin(requested, minimum, price, allowed);
      d.approved ==>
        && IsMultiple8(d.shares) && d.shares >= 0.0 && d.notional == d.shares * price
        && Fits(requested, price, allowed, d.shares)
        && (forall s :: IsMultiple8(s) && Fits(requested, price, allowed, s) ==> s <= d.shares)
        && (d.shares >= minimum <==> Fits(requested, price, allowed, Up8(minimum)))
  {
    FitsIffBelow(requested, price, allowed, minimum);
    var raw := Min(requested, allowed / price);
    if raw >= minimum {
      var d := SizeWithin(requested, minimum, price, allowed);
      Down8Largest(raw);
      FitsIffBelow(requested, price, allowed, d.shares);
      forall s | IsMultiple8(s) && Fits(requested, price, allowed, s) ensures s <= d.shares {
        FitsIffBelow(requested, price, allowed, s);
      }
      Down8AtLeast(raw, minimum);
      FitsIffBelow(requested, price, allowed, Up8(minimum));
    }
  }

  /** Approval happens exactly when the data are fresh, the loss cap is clear and the market minimum is affordable. */
  lemma ApprovedIff(o: SizingInput, limits: RiskLimits)
    requires InputError(o).None?
    ensures SizeOrder(o, limits).Ok?
    ensures SizeOrder(o, limits).value.approved <==>
      !o.stale && WithinLossCap(o, limits) && Affordable(o, limits, o.minimum)
  {
    AffordableIsFits(o, limits, o.minimum);
    WithinIsLargest(o.requested, o.minimum, o.price, Allowed(o, limits));
    assert o.minimum * o.price > 0.0;
  }

  /** Approved shares are the largest 8-decimal quantity that every cap admits, and cost what the decision says. */
  lemma ApprovedIsLargest(o: SizingInput, limits: RiskLimits)
    requires InputError(o).None? && SizeOrder(o, limits).value.approved
    ensures var d := SizeOrder(o, limits).value;
      && IsMultiple8(d.shares) && d.shares >= 0.0
      && d.notional == d.shares * o.price
      && Affordable(o, limits, d.shares)
      && forall s :: IsMultiple8(s) && Affordable(o, limits, s) ==> s <= d.shares
  {
    hide SizeWithin, Allowed, Fits, Affordable, IsMultiple8;
    var allowed := Allowed(o, limits);
    var d := SizeWithin(o.requested, o.minimum, o.price, allowed);
    WithinIsLargest(o.requested, o.minimum, o.price, allowed);
    LargestAffordable(o, limits, d.shares);
  }

  /** A quantity that fits the allowance and bounds all that do is the largest affordable one. */
  lemma LargestAffordable(o: SizingInput, limits: RiskLimits, shares: real)
    requires Fits(o.requested, o.price, Allowed(o, limits), shares)
    requires forall s :: IsMultiple8(s) && Fits(o.requested, o.price, Allowed(o, limits), s) ==> s <= shares
    ensures Affordable(o, limits, shares)
    ensures forall s :: IsMultiple8(s) && Affordable(o, limits, s) ==> s <= shares
  {
    AffordableIsFits(o, limits, shares);
    forall s | IsMultiple8(s) && Affordable(o, limits, s) ensures s <= shares {
      AffordableIsFits(o, limits, s);
    }
  }

  /**
   * Rounding down happens after the minimum check, so an approved order can be below the market minimum.
   * It is not exactly when the minimum rounded up to the quantum is affordable; a minimum that is already
   * a multiple of the quantum is always met.
   */
  lemma ApprovedMeetsMinimumIff(o: SizingInput, limits: RiskLimits)
    requires InputError(o).None? && SizeOrder(o, limits).value.approved
    ensures SizeOrder(o, limits).value.shares >= o.minimum <==> Affordable(o, limits, Up8(o.minimum))
    ensures IsMultiple8(o.minimum) ==> SizeOrder(o, limits).value.shares >= o.minimum
  {
    WithinIsLargest(o.requested, o.minimum, o.price, Allowed(o, limits));
    AffordableIsFits(o, limits, Up8(o.minimum));
    if IsMultiple8(o.minimum) {
      Up8OfMultiple(o.minimum);
    }
  }

  /** A minimum of half a quantum is approved and then rounded to no shares at all. */
  lemma ApprovedBelowMinimumExample()
    ensures var o := SizingInput(100.0, 0.5, 0.000000005, 0.0, 0.0, 0.000000005, 0.0, 0.0, 0.0, 0.0, 0.0, false);
      var r := SizeOrder(o, RiskLimits(0.05, 0.25, 0.1));
      r.Ok? && r.value.approved && r.value.shares == 0.0 < o.minimum
  {
    var o := SizingInput(100.0, 0.5, 0.000000005, 0.0, 0.0, 0.000000005, 0.0, 0.0, 0.0, 0.0, 0.0, false);
    assert FloorInt(0.5) == 0;
    assert 100.0 * 0.05 / 0.5 == 10.0;
  }

  /** More balance, less exposure or a lower price never approves fewer shares. */
  lemma SizingMonotone(o: SizingInput, balance: real, exposure: real, price: real, limits: RiskLimits)
    requires o.balance <= balance && exposure <= o.currentExposure && price <= o.price
    requires limits.Valid() && InputError(o).None? && SizeOrder(o, limits).value.approved
    requires 0.0 <= exposure && 0.0 < price
    ensures var p := o.(balance := balance, currentExposure := exposure, price := price);
      SizeOrder(p, limits).Ok? && SizeOrder(p, limits).value.approved
      && SizeOrder(o, limits).value.shares <= SizeOrder(p, limits).value.shares
  {
    hide Times, Allowed, SizeWithin, Affordable;
    var p := o.(balance := balance, currentExposure := exposure, price := price);
    var s := SizeOrder(o, limits).value.shares;
    ApprovedIff(o, limits);
    ApprovedIsLargest(o, limits);
    AffordableMonotone(o, balance, exposure, price, limits, o.minimum);
    AffordableMonotone(o, balance, exposure, price, limits, s);
    Mono(limits.dailyLoss, o.balance, balance);
    ApprovedIff(p, limits);
    ApprovedIsLargest(p, limits);
  }

  lemma AffordableMonotone(o: SizingInput, balance: real, exposure: real, price: real, limits: RiskLimits, s: real)
    requires o.balance <= balance && exposure <= o.currentExposure && price <= o.price
    requires limits.Valid() && s >= 0.0 && Affordable(o, limits, s)
    ensures Affordable(o.(balance := balance, currentExposure := exposure, price := price), limits, s)
  {
    hide Times;
    Mono(s, price, o.price);
    Mono(limits.trade, o.balance, balance);
    Mono(limits.exposure, o.balance, balance);
  }

  // ---- Refusals and rejections ----

  /** Which inputs are refused, and as what. */
  lemma SizingRefuses(o: SizingInput, limits: RiskLimits)
    ensures var r := SizeOrder(o, limits);
      var sensible := o.balance > 0.0 && 0.0 < o.price <= 1.0 && o.requested > 0.0
        && o.currentExposure >= 0.0 && o.assetExposure >= 0.0 && o.correlatedExposure >= 0.0
        && o.fees >= 0.0 && o.slippage >= 0.0;
      && (!sensible ==> r == Err(InvalidInputs))
      && (sensible && o.minimum <= 0.0 ==> r == Err(MinimumNotPositive))
      && (sensible && 0.0 < o.minimum && o.requested < o.minimum ==> r == Err(BelowMarketMinimum))
      && (sensible && 0.0 < o.minimum <= o.requested ==> r.Ok?)
  {
  }

  /** A rejection sizes nothing, and names the first of stale data, the loss cap, the exposure cap and the minimum. */
  lemma RejectionReason(o: SizingInput, limits: RiskLimits)
    requires InputError(o).None? && !SizeOrder(o, limits).value.approved
    ensures var d := SizeOrder(o, limits).value;
      var held := Max(o.currentExposure, o.assetExposure + o.correlatedExposure);
      && d.shares == 0.0 && d.notional == 0.0
      && (o.stale ==> d.reasons == ["stale_data"])
      && (!o.stale && !WithinLossCap(o, limits) ==> d.reasons == ["daily_loss_cap"])
      && (!o.stale && WithinLossCap(o, limits) && Times(o.balance, limits.exposure) <= held ==> d.reasons == ["exposure_cap"])
      && (!o.stale && WithinLossCap(o, limits) && held < Times(o.balance, limits.exposure) ==>
        d.reasons == ["risk_cap_below_minimum"])
  {
    TimesIs(o.balance, limits.exposure);
    TimesIs(o.balance, limits.dailyLoss);
  }

  lemma TimesIs(a: real, b: real)
    ensures Times(a, b) == a * b
  {
  }
}
