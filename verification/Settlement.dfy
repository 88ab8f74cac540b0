/** Deriving the outcome of a contract from settlement evidence (`_derive_settlement_outcome` in app/services/paper.py). */
module Settlement {
  import opened Outcomes
  import opened Rounding
  import opened Text
  import opened Buckets
  import opened CryptoEvent

  datatype Outcome = Yes | No

  /** The rule data a contract carries for its domain. */
  datatype Domain =
    | Crypto(terms: Terms, closingPrice: bool, halfUp: bool)
    | Weather(buckets: seq<Bucket>, rounding: Mode)
    | Unsupported

  datatype Contract = Contract(id: int, accepted: bool, source: Option<string>, expiry: Option<int>, domain: Domain) {
    predicate Valid() { domain.Crypto? ==> domain.terms.increment.Valid() }
  }

  /**
   * Evidence as fetched. `reading` is what the provider payload yields once its shape, hash, provenance and
   * coverage have been checked: the closing price, or the day's highest temperature in the contract's unit.
   */
  datatype Evidence = Evidence(
    contractId: int, source: string, observedAt: int, retrievedAt: int, claimed: Option<Outcome>, rawHash: string,
    reading: Option<real>)

  datatype DeriveError =
    | ContractMismatch | SourceMismatch | TimestampMismatch | UnsupportedDomain | InvalidLabel
    | UnsupportedPriceDefinition | BadPayload | InvalidPrice | UnsupportedRounding | InvalidReference
    | NoBucket | LabelMissing | ClaimConflict

  function Normalized(source: string): string { Lower(Strip(source)) }

  predicate IsYesNo(title: string) { Lower(title) == "yes" || Lower(title) == "no" }

  function FromBool(yes: bool): Outcome { if yes then Yes else No }

  function CheckClaim(outcome: Outcome, claimed: Option<Outcome>): Result<Outcome, DeriveError> {
    if claimed.Some? && claimed.value != outcome then Err(ClaimConflict) else Ok(outcome)
  }

  function DeriveCrypto(c: Contract, title: string, e: Evidence): Result<Outcome, DeriveError>
    requires c.Valid() && c.domain.Crypto?
  {
    if !IsYesNo(title) then Err(InvalidLabel)
    else if !c.domain.closingPrice then Err(UnsupportedPriceDefinition)
    else if e.reading.None? then Err(BadPayload)
    else if e.reading.value <= 0.0 then Err(InvalidPrice)
    else if !c.domain.halfUp then Err(UnsupportedRounding)
    else
      var yes := SettlementYes(c.domain.terms, e.reading.value);
      if yes.None? then Err(InvalidReference) else CheckClaim(FromBool(yes.value), e.claimed)
  }

  function DeriveWeather(c: Contract, title: string, e: Evidence): Result<Outcome, DeriveError>
    requires c.domain.Weather?
  {
    if e.reading.None? then Err(BadPayload)
    else
      var rounded := RoundWhole(e.reading.value, c.domain.rounding) as real;
      var bucket := FirstContaining(c.domain.buckets, rounded);
      if bucket.None? then Err(NoBucket)
      else if title == "" then Err(LabelMissing)
      else CheckClaim(FromBool(CanonicalLabel(title) == CanonicalLabel(bucket.value.title)), e.claimed)
  }

  function Derive(c: Contract, title: string, e: Evidence): Result<Outcome, DeriveError>
    requires c.Valid()
  {
    if e.contractId != c.id then Err(ContractMismatch)
    else if c.source.None? || c.source.value == "" || Normalized(e.source) != Normalized(c.source.value) then
      Err(SourceMismatch)
    else if c.expiry.None? || e.observedAt != c.expiry.value then Err(TimestampMismatch)
    else match c.domain
      case Weather(_, _) => DeriveWeather(c, title, e)
      case Crypto(_, _, _) => DeriveCrypto(c, title, e)
      case Unsupported => Err(UnsupportedDomain)
  }

  /** Whether a position bought on the signal is paid. */
  function Won(c: Contract, title: string, outcome: Outcome): bool {
    if c.domain.Weather? then outcome == Yes else Lower(title) == (if outcome == Yes then "yes" else "no")
  }

  /** A settled crypto contract resolves the very event the forecast counted, when its increment is one the parser emits. */
  lemma CryptoSettlesTheForecastEvent(c: Contract, title: string, e: Evidence)
    requires c.Valid() && c.domain.Crypto? && c.domain.terms.Valid() && c.domain.terms.increment in ParsedIncrements()
    requires Derive(c, title, e).Ok?
    ensures var t := c.domain.terms; var price := e.reading;
      price.Some? && ForecastTarget(t).Some?
      && (Derive(c, title, e).value == Yes <==> ForecastHit(t, ForecastTarget(t).value, price.value))
  {
    ParsedContractsAgree(c.domain.terms, e.reading.value);
  }

  // ---- What evidence settles a contract ----

  /** The evidence is about this contract: its id, its named source and its expiry. */
  ghost predicate About(c: Contract, e: Evidence) {
    e.contractId == c.id && FromSource(c, e) && c.expiry == Some(e.observedAt)
  }

  /** The contract names a source, and the evidence comes from it but for case and surrounding space. */
  ghost predicate FromSource(c: Contract, e: Evidence) {
    c.source.Some? && c.source.value != "" && Lower(Strip(e.source)) == Lower(Strip(c.source.value))
  }

  /**
   * Evidence for another contract, from another source or of another moment settles nothing, and the first of these
   * that applies is the error; a claim that contradicts the derived outcome is refused as well.
   */
  lemma DeriveRefuses(c: Contract, title: string, e: Evidence)
    requires c.Valid()
    ensures e.contractId != c.id ==> Derive(c, title, e) == Err(ContractMismatch)
    ensures e.contractId == c.id && !FromSource(c, e) ==> Derive(c, title, e) == Err(SourceMismatch)
    ensures e.contractId == c.id && FromSource(c, e) && c.expiry != Some(e.observedAt) ==>
      Derive(c, title, e) == Err(TimestampMismatch)
    ensures About(c, e) && c.domain.Unsupported? ==> Derive(c, title, e) == Err(UnsupportedDomain)
    ensures Derive(c, title, e).Ok? ==> About(c, e) && (e.claimed.None? || e.claimed == Some(Derive(c, title, e).value))
    ensures var unclaimed := Derive(c, title, e.(claimed := None));
      e.claimed.Some? && unclaimed.Ok? && unclaimed.value != e.claimed.value ==>
        Derive(c, title, e) == Err(ClaimConflict)
  {
    hide Strip, Lower, SettlementYes, FirstContaining, RoundWhole, CanonicalLabel;
  }

  /**
   * Evidence about a crypto contract with a positive closing price settles it exactly when its label, price
   * definition, rounding and boundary are usable and no claim contradicts; the outcome is YES exactly when the
   * rounded price satisfies the comparison.
   */
  lemma CryptoDerivation(c: Contract, title: string, e: Evidence, m: real, boundary: real)
    requires c.Valid() && c.domain.Crypto? && About(c, e) && e.reading.Some? && e.reading.value > 0.0
    requires var t := c.domain.terms; NearestMultiple(e.reading.value, t.increment.Value(), m) && HasBoundary(t, boundary)
    ensures var t := c.domain.terms; var yes := Satisfies(t.comparison, t.inclusive, m, boundary);
      && (Derive(c, title, e).Ok? <==>
        && (Lower(title) == "yes" || Lower(title) == "no") && c.domain.closingPrice && c.domain.halfUp
        && (e.claimed.None? || (e.claimed.value == Yes <==> yes)))
      && (Derive(c, title, e).Ok? ==> (Derive(c, title, e).value == Yes <==> yes))
  {
    hide Strip, Lower, SettlementYes, NearestMultiple, Satisfies, HasBoundary;
    SettlementMeaning(c.domain.terms, e.reading.value, m, boundary);
  }

  /** Evidence about a weather contract settles it exactly when a bucket holds the rounded reading and no claim contradicts. */
  lemma WeatherDerivation(c: Contract, title: string, e: Evidence, n: int)
    requires c.Valid() && c.domain.Weather? && About(c, e) && e.reading.Some? && title != ""
    requires n == RoundWhole(e.reading.value, c.domain.rounding)
    ensures var yes := SettlesYes(title, c.domain.buckets, n as real);
      && (Derive(c, title, e).Ok? <==>
        && Buckets.Hits(c.domain.buckets, n as real) > 0
        && (e.claimed.None? || (e.claimed.value == Yes <==> yes)))
      && (Derive(c, title, e).Ok? ==> (Derive(c, title, e).value == Yes <==> yes))
  {
    hide Strip, Lower, CanonicalLabel, RoundWhole;
  }

  lemma CryptoNeeds(c: Contract, title: string, e: Evidence)
    requires c.Valid() && c.domain.Crypto? && Derive(c, title, e).Ok?
    ensures e.reading.Some? && e.reading.value > 0.0
    ensures exists boundary :: HasBoundary(c.domain.terms, boundary)
  {
    hide Normalized, Lower, NearestMultiple, RoundToMultiple;
    var t := c.domain.terms;
    assert SettlementYes(t, e.reading.value).Some?;
    assert HasBoundary(t, if t.comparison.Up? || t.comparison.Down? then t.reference.value else t.threshold.value);
  }

  lemma WeatherNeeds(c: Contract, title: string, e: Evidence)
    requires c.Valid() && c.domain.Weather? && Derive(c, title, e).Ok?
    ensures e.reading.Some? && title != ""
  {
    hide Normalized, CanonicalLabel;
  }

  /** A crypto position is paid when its own side is the outcome, a weather position when its label is. */
  lemma WonMeaning(c: Contract, title: string, outcome: Outcome)
    ensures c.domain.Weather? ==> (Won(c, title, outcome) <==> outcome == Yes)
    ensures !c.domain.Weather? && Lower(title) == "yes" ==> (Won(c, title, outcome) <==> outcome == Yes)
    ensures !c.domain.Weather? && Lower(title) == "no" ==> (Won(c, title, outcome) <==> outcome == No)
  {
  }

  /** Of a YES and a NO position on the same settled crypto contract, the one on the outcome is paid and the other is not. */
  lemma CryptoPaysOneSide(c: Contract, yes: string, no: string, e: Evidence)
    requires c.Valid() && c.domain.Crypto? && Lower(yes) == "yes" && Lower(no) == "no"
    requires Derive(c, yes, e).Ok?
    ensures Derive(c, no, e) == Derive(c, yes, e)
    ensures Won(c, yes, Derive(c, yes, e).value) <==> Derive(c, yes, e).value == Yes
    ensures Won(c, no, Derive(c, no, e).value) <==> Derive(c, no, e).value == No
  {
  }

  /** Contract and evidence of one of an event's markets: the event's buckets, rounding and reading, accepted provenance. */
  ghost predicate OnEvent(c: Contract, e: Evidence, buckets: seq<Bucket>, rounding: Mode, reading: real) {
    && c.domain == Weather(buckets, rounding)
    && e.contractId == c.id && c.expiry == Some(e.observedAt)
    && c.source.Some? && c.source.value != "" && Normalized(e.source) == Normalized(c.source.value)
    && e.reading == Some(reading) && e.claimed.None?
  }

  /** The evidence settles the contract. */
  predicate Resolves(c: Contract, title: string, e: Evidence) {
    c.Valid() && Derive(c, title, e).Ok?
  }

  /** The evidence settles the contract, and a position on the title is paid. */
  predicate Pays(c: Contract, title: string, e: Evidence) {
    Resolves(c, title, e) && Won(c, title, Derive(c, title, e).value)
  }

  /** What settles a market of an accepted event, when nothing about its evidence is in dispute. */
  lemma WeatherOutcome(c: Contract, title: string, e: Evidence, buckets: seq<Bucket>, rounding: Mode, reading: real)
    requires OnEvent(c, e, buckets, rounding, reading) && title != ""
    requires FirstContaining(buckets, RoundWhole(reading, rounding) as real).Some?
    ensures Resolves(c, title, e)
    ensures Pays(c, title, e) <==> SettlesYes(title, buckets, RoundWhole(reading, rounding) as real)
  {
    hide CanonicalLabel, Normalized, FirstContaining, RoundWhole;
  }

  /**
   * The markets of an accepted event with whole-degree buckets, each with its own contract and evidence, all
   * resolve, whatever the common reading and rounding, and exactly one of them pays.
   */
  lemma WeatherPaysOneLabel(
    contracts: seq<Contract>, labels: seq<string>, evidence: seq<Evidence>, read: string -> Option<Shape>,
    buckets: seq<Bucket>, rounding: Mode, reading: real) returns (winner: nat)
    requires |contracts| == |labels| == |evidence|
    requires ParseAll(labels, read).Some? && AllIntegral(ParseAll(labels, read).value)
    requires ValidateComplete(ParseAll(labels, read).value) == Ok(buckets)
    requires forall i :: 0 <= i < |labels| ==> labels[i] != "" && OnEvent(contracts[i], evidence[i], buckets, rounding, reading)
    ensures winner < |labels|
    ensures forall j :: 0 <= j < |labels| ==>
      Resolves(contracts[j], labels[j], evidence[j]) && (Pays(contracts[j], labels[j], evidence[j]) <==> j == winner)
  {
    hide CanonicalLabel, ParseAll, ValidateComplete, OnEvent, Resolves, Pays;
    var n := RoundWhole(reading, rounding);
    winner := ExactlyOneLabelSettlesYes(labels, read, n);
    assert SettlesYes(labels[winner], buckets, n as real);
    forall j | 0 <= j < |labels|
      ensures Resolves(contracts[j], labels[j], evidence[j]) && (Pays(contracts[j], labels[j], evidence[j]) <==> j == winner)
    {
      assert OnEvent(contracts[j], evidence[j], buckets, rounding, reading);
      WeatherOutcome(contracts[j], labels[j], evidence[j], buckets, rounding, reading);
    }
  }
}
