/**
 * What each paper transaction answers and writes, in terms of its arguments and the rows it found: when it is refused
 * and how, when an entry opens and with which rows, what a mark and a settlement leave (app/services/paper.py).
 */
module PaperAnswers {
  import opened Outcomes
  import opened Products
  import opened Text
  import opened Sums
  import opened Risk
  import opened Rounding
  import opened Buckets
  import opened CryptoEvent
  import opened Settlement
  import opened PaperLedger
  import opened PaperInvariant
  import opened PaperRuns

  // ---- The arguments an execution is bound to ----

  ghost predicate Given(x: Option<real>) {
    x.Some? && x.value != 0.0
  }

  /** Who is refused before anything is looked up, and which sizes and which key the rest are bound to. */
  lemma BoundArguments(setup: Setup, req: ExecuteRequest)
    ensures Strip(req.actor) == "" ==> Bind(setup, req) == Err(ActorRequired)
    ensures Strip(req.actor) != "" && req.signalId !in setup.signals ==> Bind(setup, req) == Err(SignalNotFound)
    ensures Strip(req.actor) != "" && req.signalId in setup.signals ==>
      var stored := setup.signals[req.signalId].requiredSize;
      && (!Given(req.minimum) && stored.None? ==> Bind(setup, req) == Err(MinimumMissing))
      && (!Given(req.minimum) && stored.Some? && stored.value <= 0.0 ==> Bind(setup, req) == Err(MinimumInvalid))
      && (Given(req.minimum) || (stored.Some? && stored.value > 0.0) ==>
        Bind(setup, req).Ok? &&
        var b := Bind(setup, req).value;
        && b.signalId == req.signalId && b.actor == Strip(req.actor)
        && (Given(req.minimum) ==> b.required == req.minimum.value)
        && (!Given(req.minimum) ==> b.required == stored.value)
        && (Given(req.requested) ==> b.requested == req.requested.value)
        && (!Given(req.requested) ==> b.requested == b.required)
        && (req.requestId.Some? && req.requestId.value != "" ==> b.requestId == req.requestId.value)
        && (req.requestId.None? || req.requestId.value == "" ==>
          b.requestId == "paper-execute:" + setup.signals[req.signalId].fingerprint))
  {
    hide Strip;
  }

  // ---- First requests and repeated ones ----

  /** Neither the signal nor the request id has a decision. */
  ghost predicate Unused(st: State, b: PaperLedger.BoundRequest) {
    && (forall k :: 0 <= k < |st.decisions| ==> st.decisions[k].signalId != b.signalId)
    && (forall k :: 0 <= k < |st.decisions| ==> st.decisions[k].requestId != b.requestId)
  }

  /**
   * A decided signal answers with its stored result when the request carries exactly the arguments it was bound to,
   * and conflicts otherwise; an id that another signal's decision uses conflicts. Nothing is written.
   */
  lemma RepeatedExecution(setup: Setup, st: State, req: ExecuteRequest, k: nat)
    requires Inv(setup, st) && Bind(setup, req).Ok? && k < |st.decisions|
    ensures var b, d, r := Bind(setup, req).value, st.decisions[k], Execute(setup, st, req);
      && (d.signalId == b.signalId || d.requestId == b.requestId ==> r.state == st)
      && (d.signalId == b.signalId ==>
        if d.requestId == b.requestId && d.actor == b.actor && d.requested == b.requested && d.required == b.required
        then
          && (!d.approved ==> r.result == Ok(RejectedEntry(d.signalId, d.reasons)))
          && (d.approved ==> FilledFor(st, d, r.result))
        else r.result == Err(IdempotencyConflict(b.requestId)))
      && (d.signalId != b.signalId && d.requestId == b.requestId ==> r.result == Err(IdempotencyConflict(b.requestId)))
  {
    hide Bind, EligibilityReasons, Trade, Times, Conserved, Solvent, Settled;
    var b, d := Bind(setup, req).value, st.decisions[k];
    var byId := DecisionByRequest(st.decisions, b.requestId);
    if d.signalId == b.signalId {
      OnlyDecision(st, k);
      if d.approved {
        assert DecisionOk(st, d);
        PositionHasOrder(setup, st, PositionFor(st.positions, d.signalId).value);
      }
    } else if d.requestId == b.requestId {
      OnlyRequest(st, k);
      var byBoth := DecisionFor(st.decisions, b.signalId);
      if byBoth.Some? {
        assert st.decisions[byBoth.value].requestId != b.requestId;
      }
    }
  }

  /** The result names the one order and position of the decision's signal, of the approved size. */
  ghost predicate FilledFor(st: State, d: Decision, r: Result<ExecutionResult, PaperError>) {
    r.Ok? && r.value.FilledEntry?
    && var f := r.value;
      && f.signalId == d.signalId && f.orderId == f.positionId < |st.positions|
      && st.positions[f.positionId].signalId == d.signalId && f.size == d.approvedShares
      && f.orderId < |st.orders| && f.price == st.orders[f.orderId].price
  }

  lemma OnlyDecision(st: State, k: nat)
    requires AtMostOnce(st) && k < |st.decisions|
    ensures DecisionFor(st.decisions, st.decisions[k].signalId) == Some(k)
  {
    hide DecisionFor;
    var m := DecisionFor(st.decisions, st.decisions[k].signalId);
    assert m.Some? && !(m.value < k) && !(k < m.value);
  }

  lemma OnlyRequest(st: State, k: nat)
    requires AtMostOnce(st) && k < |st.decisions|
    ensures DecisionByRequest(st.decisions, st.decisions[k].requestId) == Some(k)
  {
    hide DecisionByRequest;
    var m := DecisionByRequest(st.decisions, st.decisions[k].requestId);
    assert m.Some? && !(m.value < k) && !(k < m.value);
  }

  /** The order and the position of an entry have the same number. */
  lemma PositionHasOrder(setup: Setup, st: State, i: nat)
    requires Entries(setup, st) && AtMostOnce(st) && i < |st.positions|
    ensures OrderFor(st.orders, st.positions[i].signalId) == Some(i)
    ensures PositionFor(st.positions, st.positions[i].signalId) == Some(i)
    ensures st.orders[i].size == st.positions[i].shares
  {
    hide OrderFor, PositionFor, EntryOk;
    var id := st.positions[i].signalId;
    forall j | 0 <= j < |st.orders| ensures st.orders[j].signalId == st.positions[j].signalId {
      EntrySignals(setup, st, j);
    }
    EntrySignals(setup, st, i);
    var o, p := OrderFor(st.orders, id), PositionFor(st.positions, id);
    assert o.Some? && !(o.value < i) && !(i < o.value);
    assert p.Some? && !(p.value < i) && !(i < p.value);
  }

  lemma EntrySignals(setup: Setup, st: State, j: nat)
    requires Entries(setup, st) && j < |st.positions|
    ensures st.orders[j].signalId == st.positions[j].signalId && st.orders[j].size == st.positions[j].shares
  {
    assert EntryOk(setup, st.orders[j], st.fills[j], st.positions[j], j);
  }

  // ---- The gate ----

  /** Execution is unpaused, the contract accepted and still to expire, and no other reason stands against the entry. */
  ghost predicate GateClear(gate: Gate, now: int) {
    && !gate.paused
    && gate.contract.Some? && gate.contract.value.accepted
    && gate.contract.value.expiry.Some? && gate.contract.value.expiry.value > now
    && gate.otherReasons == []
  }

  /** The reasons of a rejection are those that apply, in the source's order. */
  ghost predicate ReasonsOf(gate: Gate, now: int, reasons: seq<string>) {
    exists paused: seq<string>, contract: seq<string> ::
      && reasons == paused + contract + gate.otherReasons
      && paused == (if gate.paused then ["execution_paused"] else [])
      && (gate.contract.None? ==> contract == ["contract_missing"])
      && (gate.contract.Some? && !gate.contract.value.accepted ==> contract == ["contract_not_accepted"])
      && (gate.contract.Some? && gate.contract.value.accepted ==>
        contract == if gate.contract.value.expiry.Some? && gate.contract.value.expiry.value > now then [] else ["contract_expired"])
  }

  /** A sizing rejection names one of the caps. */
  ghost predicate NamesCap(reasons: seq<string>) {
    reasons in [["daily_loss_cap"], ["exposure_cap"], ["risk_cap_below_minimum"]]
  }

  /**
   * A first request is rejected at the gate exactly when the gate is not clear. The rejection and the stored decision
   * carry exactly the reasons that apply, and no money moves; past a clear gate only the sizing caps reject.
   */
  lemma GateDecides(setup: Setup, st: State, req: ExecuteRequest)
    requires Bind(setup, req).Ok? && Unused(st, Bind(setup, req).value)
    ensures var b, r := Bind(setup, req).value, Execute(setup, st, req);
      && (!GateClear(req.gate, req.now) ==>
        r.result.Ok? && r.result.value.RejectedEntry? && r.result.value.signalId == b.signalId
        && var reasons := r.result.value.reasons;
          && reasons != [] && ReasonsOf(req.gate, req.now, reasons)
          && r.state == st.(decisions := st.decisions + [Decision(b.signalId, b.requestId, b.actor, b.requested, b.required,
            false, reasons, 0.0, Balance(setup, st), 0.0, 0.0, req.now)]))
      && (GateClear(req.gate, req.now) && r.result.Ok? && r.result.value.RejectedEntry? ==> NamesCap(r.result.value.reasons))
  {
    hide Bind, SizingFor, EstimateEntry, Filled, ExecutionResultOf, Matches;
    var gate, reasons := req.gate, EligibilityReasons(req.gate, req.now);
    NotDecided(st, Bind(setup, req).value);
    ReasonsMeaning(gate, req.now);
    hide GateClear, ReasonsOf, EligibilityReasons;
    BoundSignalExists(setup, req);
    SizingFresh(setup, st, Bind(setup, req).value, req.now);
    SizingReasons(SizingFor(setup, st, Bind(setup, req).value, req.now), setup.settings.limits);
    hide SizeOrder;
  }

  lemma NotDecided(st: State, b: PaperLedger.BoundRequest)
    requires Unused(st, b)
    ensures DecisionFor(st.decisions, b.signalId).None? && DecisionByRequest(st.decisions, b.requestId).None?
  {
    hide DecisionFor, DecisionByRequest;
  }

  lemma BoundSignalExists(setup: Setup, req: ExecuteRequest)
    requires Bind(setup, req).Ok?
    ensures Bind(setup, req).value.signalId in setup.signals
  {
  }

  lemma SizingFresh(setup: Setup, st: State, b: PaperLedger.BoundRequest, now: int)
    requires b.signalId in setup.signals
    ensures !SizingFor(setup, st, b, now).stale
  {
  }

  lemma ReasonsMeaning(gate: Gate, now: int)
    ensures EligibilityReasons(gate, now) == [] <==> GateClear(gate, now)
    ensures ReasonsOf(gate, now, EligibilityReasons(gate, now))
  {
    var paused := if gate.paused then ["execution_paused"] else [];
    var contract := if gate.contract.None? then ["contract_missing"]
      else if !gate.contract.value.accepted then ["contract_not_accepted"]
      else if gate.contract.value.expiry.Some? && gate.contract.value.expiry.value > now then [] else ["contract_expired"];
    assert EligibilityReasons(gate, now) == paused + contract + gate.otherReasons;
  }

  lemma SizingReasons(o: SizingInput, limits: RiskLimits)
    ensures SizeOrder(o, limits).Ok? && !SizeOrder(o, limits).value.approved && !o.stale ==>
      NamesCap(SizeOrder(o, limits).value.reasons)
  {
  }

  // ---- When an entry opens, and what it writes ----

  /** The price that sizing charges for a share. */
  function ChargedPrice(setup: Setup, ask: real): real {
    Min(1.0, ask + setup.settings.slippage) * (1.0 + setup.settings.fee)
  }

  /**
   * Past the gate a first request opens a position exactly when its sizes make sense, the day is above its loss cap,
   * and both the required size and a single quantum are within the caps at a price of at most one.
   */
  lemma EntryOpensIff(setup: Setup, st: State, req: ExecuteRequest)
    requires setup.Valid() && Inv(setup, st) && Bind(setup, req).Ok? && Unused(st, Bind(setup, req).value)
    requires Bind(setup, req).value.signalId in setup.signals && GateClear(req.gate, req.now)
    ensures var b := Bind(setup, req).value; var ask := setup.signals[b.signalId].ask;
      |Execute(setup, st, req).state.positions| > |st.positions| <==>
        && ask > 0.0 && ChargedPrice(setup, ask) <= 1.0 && 0.0 < b.required <= b.requested
        && RealizedSince(st, DayStart(req.now)) + Unrealized(st) > -Times(Balance(setup, st), setup.settings.limits.dailyLoss)
        && WithinCaps(setup, st, b, b.required) && WithinCaps(setup, st, b, Ticks(1))
  {
    var b := Bind(setup, req).value;
    hide Bind, Inv, Trade, SizeOrder, WithinCaps, ChargedPrice, RealizedSince, Unrealized, Times, GateClear;
    FirstIsTrade(setup, st, req);
    InvHoldsSolvent(setup, st);
    TradeOpensIff(setup, st, b, req.now);
  }

  lemma InvHoldsSolvent(setup: Setup, st: State)
    requires Inv(setup, st)
    ensures Solvent(setup, st)
  {
  }

  lemma FirstIsTrade(setup: Setup, st: State, req: ExecuteRequest)
    requires Bind(setup, req).Ok? && Unused(st, Bind(setup, req).value) && GateClear(req.gate, req.now)
    ensures Bind(setup, req).value.signalId in setup.signals
    ensures Execute(setup, st, req) == Trade(setup, st, Bind(setup, req).value, req.now)
  {
    hide Bind, EligibilityReasons, GateClear, Trade;
    BoundSignalExists(setup, req);
    NotDecided(st, Bind(setup, req).value);
    ReasonsMeaning(req.gate, req.now);
  }

  lemma TradeOpensIff(setup: Setup, st: State, b: PaperLedger.BoundRequest, now: int)
    requires setup.Valid() && Solvent(setup, st) && b.signalId in setup.signals
    ensures var ask := setup.signals[b.signalId].ask;
      |Trade(setup, st, b, now).state.positions| > |st.positions| <==>
        && ask > 0.0 && ChargedPrice(setup, ask) <= 1.0 && 0.0 < b.required <= b.requested
        && RealizedSince(st, DayStart(now)) + Unrealized(st) > -Times(Balance(setup, st), setup.settings.limits.dailyLoss)
        && WithinCaps(setup, st, b, b.required) && WithinCaps(setup, st, b, Ticks(1))
  {
    var o, limits, ask := SizingFor(setup, st, b, now), setup.settings.limits, setup.signals[b.signalId].ask;
    hide Trade, SizeOrder, WithinCaps, RealizedSince, Unrealized, OpenCost, Affordable, EstimateEntry, Times;
    OpensWhenSized(setup, st, b, now);
    ValidSizing(setup, st, b, now);
    if ask > 0.0 && InputError(o).None? {
      hide ChargedPrice;
      ApprovedIff(o, limits);
      SizedPositiveIff(o, limits);
      SizingLossInputs(setup, st, b, now);
      WithinIsAffordable(setup, st, b, now, b.required);
      QuantumPositive();
      WithinIsAffordable(setup, st, b, now, Ticks(1));
    }
  }

  lemma QuantumPositive()
    ensures Ticks(1) > 0.0
  {
  }

  lemma WithinIsAffordable(setup: Setup, st: State, b: PaperLedger.BoundRequest, now: int, shares: real)
    requires setup.Valid() && Solvent(setup, st) && b.signalId in setup.signals && shares > 0.0
    ensures WithinCaps(setup, st, b, shares) <==> Affordable(SizingFor(setup, st, b, now), setup.settings.limits, shares)
  {
    hide Affordable, WithinCaps, EstimateEntry, SizingFor, Solvent;
    assert 0.0 <= setup.signals[b.signalId].ask <= 1.0;
    QuoteEqualsNotional(setup.signals[b.signalId].ask, shares, setup.settings.fee, setup.settings.slippage);
    QuotedIsAffordable(setup, st, b, now, shares);
  }

  /** The sizing call of an entry is accepted exactly when its price and sizes make sense. */
  lemma ValidSizing(setup: Setup, st: State, b: PaperLedger.BoundRequest, now: int)
    requires setup.Valid() && Solvent(setup, st) && b.signalId in setup.signals
    ensures var ask, o := setup.signals[b.signalId].ask, SizingFor(setup, st, b, now);
      && o.minimum == b.required && !o.stale
      && (ask > 0.0 ==> (InputError(o).None? <==> ChargedPrice(setup, ask) <= 1.0 && 0.0 < b.required <= b.requested))
      && (SizeOrder(o, setup.settings.limits).Ok? <==> InputError(o).None?)
  {
    hide OpenCost, RealizedSince, Unrealized, Times;
    var ask := setup.signals[b.signalId].ask;
    if ask > 0.0 {
      PositiveProduct(Min(1.0, ask + setup.settings.slippage), 1.0 + setup.settings.fee);
      TimesIs(Min(1.0, ask + setup.settings.slippage), 1.0 + setup.settings.fee);
    }
  }

  /** A trade opens a position exactly when it is approved for some shares at a positive ask. */
  lemma OpensWhenSized(setup: Setup, st: State, b: PaperLedger.BoundRequest, now: int)
    requires setup.Valid() && Solvent(setup, st) && b.signalId in setup.signals
    ensures var sized := SizeOrder(SizingFor(setup, st, b, now), setup.settings.limits);
      |Trade(setup, st, b, now).state.positions| > |st.positions| <==>
        sized.Ok? && sized.value.approved && sized.value.shares > 0.0 && setup.signals[b.signalId].ask > 0.0
  {
    hide SizeOrder, EstimateEntry, SizingFor, Solvent, Times;
    var sized := SizeOrder(SizingFor(setup, st, b, now), setup.settings.limits);
    TradeFits(setup, st, b, now);
    SizingBalance(setup, st, b, now);
    if sized.Ok? {
      QuoteNeedsShares(setup.signals[b.signalId].ask, sized.value.shares, setup.settings);
    }
  }

  lemma SizingBalance(setup: Setup, st: State, b: PaperLedger.BoundRequest, now: int)
    requires b.signalId in setup.signals
    ensures SizingFor(setup, st, b, now).balance == Balance(setup, st)
  {
  }

  /** An approved quantity is positive exactly when one quantum is affordable. */
  lemma SizedPositiveIff(o: SizingInput, limits: RiskLimits)
    requires InputError(o).None?
    ensures var sized := SizeOrder(o, limits);
      sized.Ok? && (sized.value.approved ==> (sized.value.shares > 0.0 <==> Affordable(o, limits, Ticks(1))))
  {
    hide SizeOrder, Affordable;
    ApprovedIff(o, limits);
    var d := SizeOrder(o, limits).value;
    if d.approved {
      ApprovedIsLargest(o, limits);
      QuantumPositive();
      assert IsMultiple8(Ticks(1));
      if d.shares > 0.0 {
        OneQuantum(d.shares);
        FewerAffordable(o, limits, d.shares, Ticks(1));
      }
    }
  }

  lemma OneQuantum(x: real)
    requires IsMultiple8(x) && x > 0.0
    ensures x >= Ticks(1)
  {
    var k: int :| x == Ticks(k);
  }

  lemma FewerAffordable(o: SizingInput, limits: RiskLimits, shares: real, fewer: real)
    requires Affordable(o, limits, shares) && fewer <= shares && o.price > 0.0
    ensures Affordable(o, limits, fewer)
  {
    hide Times;
    Mono(o.price, fewer, shares);
  }

  /** The rows of an opened entry: decision, order, fill and position of one purchase, and the debited balance. */
  ghost predicate OpenedRows(
    setup: Setup, st: State, b: PaperLedger.BoundRequest, now: int, after: State, r: Result<ExecutionResult, PaperError>)
    requires b.signalId in setup.signals && |after.positions| > |st.positions|
  {
    var ask := setup.signals[b.signalId].ask;
    var price, shares := Min(1.0, ask + setup.settings.slippage), after.positions[|st.positions|].shares;
    var fee := Times(Times(price, shares), setup.settings.fee);
    var total := Times(price, shares) + fee;
    && after.balance == Some(Balance(setup, st) - total)
    && after.decisions == st.decisions + [Decision(b.signalId, b.requestId, b.actor, b.requested, b.required, true, [],
      shares, Balance(setup, st), OpenCost(st), RealizedSince(st, DayStart(now)), now)]
    && after.orders == st.orders + [Order(b.signalId, ask, shares, now)]
    && after.fills == st.fills + [Fill(|st.orders|, price, shares, fee, now)]
    && after.positions == st.positions
      + [Position(b.signalId, |st.orders|, now, price, total, shares, fee, true, price, -fee, 0.0)]
    && after.settlements == st.settlements
    && r == Ok(FilledEntry(b.signalId, |st.orders|, |st.positions|, ask, shares))
  }

  lemma EntryRows(setup: Setup, st: State, req: ExecuteRequest)
    requires |Execute(setup, st, req).state.positions| > |st.positions|
    ensures Bind(setup, req).Ok? && Bind(setup, req).value.signalId in setup.signals
    ensures var r := Execute(setup, st, req); OpenedRows(setup, st, Bind(setup, req).value, req.now, r.state, r.result)
  {
    hide Bind, EligibilityReasons, DecisionFor, DecisionByRequest, ExecutionResultOf, Matches, Trade, OpenedRows;
    BoundSignalExists(setup, req);
    TradeRows(setup, st, Bind(setup, req).value, req.now);
  }

  lemma TradeRows(setup: Setup, st: State, b: PaperLedger.BoundRequest, now: int)
    requires b.signalId in setup.signals && |Trade(setup, st, b, now).state.positions| > |st.positions|
    ensures OpenedRows(setup, st, b, now, Trade(setup, st, b, now).state, Trade(setup, st, b, now).result)
  {
    hide SizeOrder, RealizedSince, Unrealized, OpenCost, EstimateEntry, Times;
    var sized := SizeOrder(SizingFor(setup, st, b, now), setup.settings.limits);
    ApprovedHasNoReasons(SizingFor(setup, st, b, now), setup.settings.limits);
    if sized.Ok? {
      QuoteTerms(setup, setup.signals[b.signalId].ask, sized.value.shares);
    }
  }

  lemma QuoteTerms(setup: Setup, ask: real, shares: real)
    ensures var q := EstimateEntry(ask, shares, setup.settings.fee, setup.settings.slippage);
      var price := Min(1.0, ask + setup.settings.slippage);
      var fee := Times(Times(price, shares), setup.settings.fee);
      q.Ok? ==> q.value == EntryQuote(price, shares, Times(price, shares), fee, Times(price, shares) + fee)
  {
  }

  lemma ApprovedHasNoReasons(o: SizingInput, limits: RiskLimits)
    ensures SizeOrder(o, limits).Ok? && SizeOrder(o, limits).value.approved ==> SizeOrder(o, limits).value.reasons == []
  {
  }

  /** The day of the loss cap is the UTC day of the call: 24 hours from a multiple of 24 hours. */
  lemma DayMeaning(now: int)
    ensures DayStart(now) <= now < DayStart(now) + 24 * 60 * 60 * 1_000_000
    ensures DayStart(now) % (24 * 60 * 60 * 1_000_000) == 0
  {
  }

  /** A settlement counts towards the day it falls in or after: exactly those settled from its start on. */
  lemma RealizedSinceMeaning(st: State, s: SettlementRow, since: int)
    ensures var after := st.(settlements := st.settlements + [s]);
      && (since <= s.settledAt ==> RealizedSince(after, since) == RealizedSince(st, since) + s.realized)
      && (s.settledAt < since ==> RealizedSince(after, since) == RealizedSince(st, since))
    ensures RealizedSince(st.(settlements := []), since) == 0.0
  {
    var counted := (r: SettlementRow) => if r.settledAt >= since then r.realized else 0.0;
    SumSnoc(st.settlements, s, counted);
    assert RealizedSince(st, since) == SumOf(st.settlements, counted);
    assert RealizedSince(st.(settlements := st.settlements + [s]), since) == SumOf(st.settlements + [s], counted);
  }

  // ---- Marks ----

  /** What a call to `mark_position` answers and leaves. */
  ghost predicate MarkAnswers(st: State, positionId: int, mark: real, after: State, r: Result<real, PaperError>) {
    && (mark < 0.0 || mark > 1.0 ==> after == st && r == Err(MarkOutOfRange))
    && (0.0 <= mark <= 1.0 && !(0 <= positionId < |st.positions| && st.positions[positionId].open) ==>
      after == st && r == Err(NotOpen))
    && (0.0 <= mark <= 1.0 && 0 <= positionId < |st.positions| && st.positions[positionId].open ==>
      var p := st.positions[positionId];
      && r == Ok(p.shares * mark - p.amount)
      && |after.positions| == |st.positions|
      && after.positions[positionId] == p.(mark := mark, unrealized := p.shares * mark - p.amount)
      && (forall j :: 0 <= j < |st.positions| && j != positionId ==> after.positions[j] == st.positions[j])
      && after.(positions := st.positions) == st)
  }

  lemma MarkIsAnswered(st: State, positionId: int, mark: real)
    ensures var m := Mark(st, positionId, mark); MarkAnswers(st, positionId, mark, m.state, m.result)
  {
  }

  /** A mark changes the marked value of the book by the position's shares times the change of its mark. */
  lemma MarkMovesValue(st: State, i: nat, mark: real)
    requires i < |st.positions| && st.positions[i].open && 0.0 <= mark <= 1.0
    ensures var p := st.positions[i];
      MarkedValue(Mark(st, i, mark).state) == MarkedValue(st) + p.shares * (mark - p.mark)
  {
    hide SumOf;
    var p := st.positions[i];
    var after := Mark(st, i, mark).state;
    SumUpdate(st.positions, i, after.positions[i], OpenMarkValue);
    assert p.shares * (mark - p.mark) == p.shares * mark - p.shares * p.mark;
  }

  // ---- Settlements ----

  ghost predicate Unpaid(st: State, positionId: int) {
    forall k :: 0 <= k < |st.settlements| ==> st.settlements[k].positionId != positionId
  }

  /** The books after a position is paid: one row, the payout added to the balance, and the position closed. */
  ghost predicate PaidBooks(setup: Setup, st: State, req: SettleRequest, after: State, won: bool)
    requires 0 <= req.positionId < |st.positions| && st.positions[req.positionId].signalId in setup.signals
  {
    var p := st.positions[req.positionId];
    var payout, observed := if won then p.shares else 0.0, if won then 1.0 else 0.0;
    var miss := setup.signals[p.signalId].probability - observed;
    && Balance(setup, after) == Balance(setup, st) + payout
    && |after.settlements| == |st.settlements| + 1 && st.settlements <= after.settlements
    && (var s := after.settlements[|st.settlements|];
      && s.positionId == req.positionId && s.actor == Strip(req.actor) && s.settledAt == req.settledAt
      && s.won == won && s.payout == payout && s.realized == payout - p.amount && s.brier == miss * miss)
    && after.positions == st.positions[req.positionId :=
      p.(open := false, mark := observed, unrealized := 0.0, realized := payout - p.amount)]
    && after.decisions == st.decisions && after.orders == st.orders && after.fills == st.fills
  }

  /** A first successful settlement found an open position on an accepted contract, and pays it or nothing. */
  lemma FirstSettlement(setup: Setup, st: State, req: SettleRequest)
    requires req.Valid() && Unpaid(st, req.positionId) && Settle(setup, st, req).result.Ok?
    ensures 0 <= req.positionId < |st.positions| && st.positions[req.positionId].open
    ensures st.positions[req.positionId].signalId in setup.signals
    ensures req.contract.Some? && req.contract.value.accepted
    ensures var r := Settle(setup, st, req);
      var c, title := req.contract.value, setup.signals[st.positions[req.positionId].signalId].title;
      var outcome := Derive(c, title, req.evidence);
      && outcome.Ok?
      && PaidBooks(setup, st, req, r.state, Won(c, title, outcome.value))
      && r.state.settlements[|st.settlements|].outcome == outcome.value
      && r.result == Ok(SettlementResult(req.positionId, |st.settlements|, outcome.value, Won(c, title, outcome.value),
        r.state.settlements[|st.settlements|].payout, r.state.settlements[|st.settlements|].realized))
  {
    hide Derive, Won, SettlementFor, SettlementByRequest, SettleRequestId, KeyOf, Strip, SettlementMatches;
    NotSettled(st, req.positionId);
  }

  lemma NotSettled(st: State, id: int)
    requires Unpaid(st, id)
    ensures id >= 0 ==> SettlementFor(st.settlements, id).None?
  {
    hide SettlementFor;
  }

  /**
   * A crypto position is paid its shares exactly when it is on "yes" and the rounded price satisfies the contract's
   * comparison, or on "no" and it does not; otherwise it is paid nothing.
   */
  lemma CryptoSettlementPays(setup: Setup, st: State, req: SettleRequest)
    requires req.Valid() && Unpaid(st, req.positionId) && Settle(setup, st, req).result.Ok?
    requires req.contract.Some? && req.contract.value.domain.Crypto?
    ensures 0 <= req.positionId < |st.positions| && st.positions[req.positionId].signalId in setup.signals
    ensures req.evidence.reading.Some? && req.evidence.reading.value > 0.0
    ensures var t, after := req.contract.value.domain.terms, Settle(setup, st, req).state;
      var title := setup.signals[st.positions[req.positionId].signalId].title;
      && (exists boundary :: HasBoundary(t, boundary))
      && (forall m, boundary ::
        NearestMultiple(req.evidence.reading.value, t.increment.Value(), m) && HasBoundary(t, boundary) ==>
        var yes := Satisfies(t.comparison, t.inclusive, m, boundary);
          PaidBooks(setup, st, req, after, (Lower(title) == "yes" && yes) || (Lower(title) == "no" && !yes)))
  {
    hide Settle, Derive, Won, PaidBooks, NearestMultiple, Satisfies, HasBoundary, Lower;
    FirstSettlement(setup, st, req);
    var c, e := req.contract.value, req.evidence;
    var t, title := c.domain.terms, setup.signals[st.positions[req.positionId].signalId].title;
    var outcome := Derive(c, title, e).value;
    DeriveRefuses(c, title, e);
    CryptoNeeds(c, title, e);
    WonMeaning(c, title, outcome);
    forall m, boundary | NearestMultiple(e.reading.value, t.increment.Value(), m) && HasBoundary(t, boundary)
      ensures Won(c, title, outcome) <==>
        var yes := Satisfies(t.comparison, t.inclusive, m, boundary); (Lower(title) == "yes" && yes) || (Lower(title) == "no" && !yes)
    {
      CryptoDerivation(c, title, e, m, boundary);
    }
  }

  /** A weather position is paid its shares exactly when its label is that of the first bucket that holds the rounded reading. */
  lemma WeatherSettlementPays(setup: Setup, st: State, req: SettleRequest)
    requires req.Valid() && Unpaid(st, req.positionId) && Settle(setup, st, req).result.Ok?
    requires req.contract.Some? && req.contract.value.domain.Weather?
    ensures 0 <= req.positionId < |st.positions| && st.positions[req.positionId].signalId in setup.signals
    ensures req.evidence.reading.Some?
    ensures var d, after := req.contract.value.domain, Settle(setup, st, req).state;
      var title := setup.signals[st.positions[req.positionId].signalId].title;
      var n := RoundWhole(req.evidence.reading.value, d.rounding) as real;
      PaidBooks(setup, st, req, after,
        exists i :: FirstHolds(d.buckets, n, i) && CanonicalLabel(title) == CanonicalLabel(d.buckets[i].title))
  {
    hide Settle, Derive, Won, PaidBooks, CanonicalLabel, FirstHolds, RoundWhole;
    FirstSettlement(setup, st, req);
    var c, e := req.contract.value, req.evidence;
    var title := setup.signals[st.positions[req.positionId].signalId].title;
    DeriveRefuses(c, title, e);
    WeatherNeeds(c, title, e);
    WonMeaning(c, title, Derive(c, title, e).value);
    var n := RoundWhole(e.reading.value, c.domain.rounding);
    WeatherDerivation(c, title, e, n);
    SettlesYesMeaning(title, c.domain.buckets, n as real);
  }

  /** On an accepted event with whole bounds: the position on the label whose bucket holds the rounded reading, and no other. */
  lemma WeatherEventPays(
    setup: Setup, st: State, req: SettleRequest, labels: seq<string>, read: string -> Option<Shape>, j: nat)
    requires req.Valid() && Unpaid(st, req.positionId) && Settle(setup, st, req).result.Ok?
    requires req.contract.Some? && req.contract.value.domain.Weather?
    requires ParseAll(labels, read).Some? && AllIntegral(ParseAll(labels, read).value)
    requires ValidateComplete(ParseAll(labels, read).value) == Ok(req.contract.value.domain.buckets)
    requires 0 <= req.positionId < |st.positions| && st.positions[req.positionId].signalId in setup.signals
    requires j < |labels| && setup.signals[st.positions[req.positionId].signalId].title == labels[j]
    ensures req.evidence.reading.Some?
    ensures PaidBooks(setup, st, req, Settle(setup, st, req).state,
      ParseAll(labels, read).value[j].Contains(
        RoundWhole(req.evidence.reading.value, req.contract.value.domain.rounding) as real))
  {
    hide Settle, PaidBooks, CanonicalLabel, FirstHolds, RoundWhole, ValidateComplete, ParseAll;
    WeatherSettlementPays(setup, st, req);
    var d := req.contract.value.domain;
    var n := RoundWhole(req.evidence.reading.value, d.rounding);
    SettlesYesMeaning(labels[j], d.buckets, n as real);
    var winner := ExactlyOneLabelSettlesYes(labels, read, n);
  }

  /** When a settlement is refused, and how; nothing is written. */
  lemma SettlementRefuses(setup: Setup, st: State, req: SettleRequest)
    requires req.Valid() && Unpaid(st, req.positionId)
    ensures var r := Settle(setup, st, req);
      var known := 0 <= req.positionId < |st.positions|;
      var reused := exists k :: 0 <= k < |st.settlements| && st.settlements[k].requestId == SettleRequestId(req);
      && (Strip(req.actor) == "" ==> r == Step(st, Err(ActorRequired)))
      && (Strip(req.actor) != "" && !known ==> r == Step(st, Err(NotOpen)))
      && (Strip(req.actor) != "" && known && reused ==> r == Step(st, Err(IdempotencyConflict(SettleRequestId(req)))))
      && (Strip(req.actor) != "" && known && !reused ==>
        var p := st.positions[req.positionId];
        var linked := p.signalId in setup.signals && setup.signals[p.signalId].contractId.Some?;
        && (!p.open ==> r == Step(st, Err(NotOpen)))
        && (p.open && !linked ==> r == Step(st, Err(ContractMissing)))
        && (p.open && linked && (req.contract.None? || !req.contract.value.accepted) ==>
          r == Step(st, Err(ContractNotAccepted)))
        && (p.open && linked && req.contract.Some? && req.contract.value.accepted ==>
          var outcome := Derive(req.contract.value, setup.signals[p.signalId].title, req.evidence);
          (r.result.Ok? <==> outcome.Ok?) && (outcome.Err? ==> r == Step(st, Err(Underivable(outcome.error))))))
  {
    hide Derive, Won, SettlementFor, SettlementByRequest, SettleRequestId, KeyOf, Strip, SettlementMatches, Paid;
    NotSettled(st, req.positionId);
    var found := SettlementByRequest(st.settlements, SettleRequestId(req));
    if found.Some? {
      assert st.settlements[found.value].requestId == SettleRequestId(req);
    }
  }

  /**
   * A settled position answers with its stored settlement when actor, key and evidence are those it was settled with,
   * and conflicts otherwise; nothing is written.
   */
  lemma RepeatedSettlement(setup: Setup, st: State, req: SettleRequest, k: nat)
    requires req.Valid() && Inv(setup, st) && k < |st.settlements| && st.settlements[k].positionId == req.positionId
    requires Strip(req.actor) != ""
    ensures var s, e, r := st.settlements[k], req.evidence, Settle(setup, st, req);
      && r.state == st
      && r.result == (
        if s.requestId == SettleRequestId(req) && s.actor == Strip(req.actor)
          && s.key == EvidenceKey(e.contractId, Lower(Strip(e.source)), e.observedAt, e.retrievedAt, Lower(e.rawHash), e.claimed)
        then Ok(SettlementResult(s.positionId, k, s.outcome, s.won, s.payout, s.realized))
        else Err(IdempotencyConflict(SettleRequestId(req))))
  {
    hide SettlementFor, SettleRequestId, Strip, Lower, Derive, Won, Entries, Decided, AtMostOnce, Conserved, Solvent;
    var m := SettlementFor(st.settlements, req.positionId);
    assert SettlementOk(st, st.settlements[k]);
    assert m.Some? && !(m.value < k) && !(k < m.value);
  }

  /** The key of a settlement: the given one, or one for each position. */
  lemma SettlementKey(req: SettleRequest)
    ensures SettleRequestId(req) == if req.requestId.Some? && req.requestId.value != "" then req.requestId.value
      else "paper-settle:" + Decimal(req.positionId)
  {
  }

  // ---- The scheduled pass ----

  /** Due are the open positions whose stored contract has an expiry that has come. */
  lemma DueMeaning(setup: Setup, st: State, pass: Pass, i: nat)
    requires i < |st.positions|
    ensures i in DueIds(setup, st, pass, |st.positions|) <==>
      && st.positions[i].open
      && st.positions[i].signalId in setup.signals
      && var id := setup.signals[st.positions[i].signalId].contractId;
        id.Some? && id.value in pass.contracts
        && pass.contracts[id.value].expiry.Some? && pass.contracts[id.value].expiry.value <= pass.now
  {
  }

  /** A due position is settled with the evidence fetched for it, against its own contract row, by the scheduler. */
  lemma PassSettles(setup: Setup, st: State, pass: Pass, i: nat)
    requires pass.Valid() && i < |st.positions| && i in DueIds(setup, st, pass, |st.positions|)
    ensures i !in pass.fetched ==> SettleDue(setup, st, pass, i) == (st, ErrorRow(i))
    ensures i in pass.fetched ==>
      var contract := pass.contracts[setup.signals[st.positions[i].signalId].contractId.value];
      var req := SettleRequest(i, pass.fetched[i], "system:settlement_scheduler",
        Some("scheduled-settlement:" + Decimal(i)), Some(contract), pass.settledAt);
      && req.Valid()
      && SettleDue(setup, st, pass, i).0 == Settle(setup, st, req).state
      && SettleDue(setup, st, pass, i).1 == match Settle(setup, st, req).result
        case Ok(paid) => SettledRow(paid)
        case Err(_) => ErrorRow(i)
  {
    hide Settle;
    DueMeaning(setup, st, pass, i);
    ContractOfValid(setup, pass, st.positions[i]);
  }
}
