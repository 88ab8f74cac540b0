/** What every committed paper transaction keeps: the rows agree with each other, the money adds up, and losses are bounded. */
module PaperInvariant {
  import opened Outcomes
  import opened Products
  import opened Sums
  import opened Rounding
  import opened Risk
  import opened Settlement
  import opened PaperLedger

  // ---- The invariant ----

  /** Order, fill and position i describe the same purchase: equal sizes, amount = price * size + fee. */
  ghost predicate EntryOk(setup: Setup, o: Order, f: Fill, p: Position, i: nat) {
    && p.signalId in setup.signals && o.signalId == p.signalId && o.price == setup.signals[p.signalId].ask
    && p.orderId == i && f.orderId == i
    && o.size == f.size == p.shares && f.price == p.entryPrice && f.fee == p.fees
    && p.shares > 0.0 && p.fees >= 0.0 && p.amount > 0.0
    && p.amount == f.price * f.size + f.fee
    && (if p.open then p.unrealized == p.shares * p.mark - p.amount && p.realized == 0.0 else p.unrealized == 0.0)
  }

  ghost predicate Entries(setup: Setup, st: State) {
    && |st.orders| == |st.fills| == |st.positions|
    && forall i :: 0 <= i < |st.positions| ==> EntryOk(setup, st.orders[i], st.fills[i], st.positions[i], i)
  }

  /** One position per signal, one decision per signal, one decision per request id. */
  ghost predicate AtMostOnce(st: State) {
    && (forall i, j :: 0 <= i < j < |st.positions| ==> st.positions[i].signalId != st.positions[j].signalId)
    && (forall i, j :: 0 <= i < j < |st.decisions| ==> st.decisions[i].signalId != st.decisions[j].signalId)
    && (forall i, j :: 0 <= i < j < |st.decisions| ==> st.decisions[i].requestId != st.decisions[j].requestId)
  }

  /** A decision is approved exactly when its signal has a position, of the approved size. */
  ghost predicate DecisionOk(st: State, d: Decision) {
    var p := PositionFor(st.positions, d.signalId);
    if d.approved then p.Some? && st.positions[p.value].shares == d.approvedShares else p.None?
  }

  ghost predicate Decided(st: State) {
    && (forall k :: 0 <= k < |st.decisions| ==> DecisionOk(st, st.decisions[k]))
    && (forall i :: 0 <= i < |st.positions| ==> DecisionFor(st.decisions, st.positions[i].signalId).Some?)
  }

  /** A settlement pays its position's shares or nothing, and the position is closed with the same result. */
  ghost predicate SettlementOk(st: State, s: SettlementRow) {
    && s.positionId < |st.positions|
    && var p := st.positions[s.positionId];
       && !p.open && s.payout == (if s.won then p.shares else 0.0)
       && s.realized == s.payout - p.amount == p.realized
  }

  /** Positions are closed by exactly one settlement each; request ids are not shared. */
  ghost predicate Settled(st: State) {
    && (forall k :: 0 <= k < |st.settlements| ==> SettlementOk(st, st.settlements[k]))
    && (forall i :: 0 <= i < |st.positions| && !st.positions[i].open ==> SettlementFor(st.settlements, i).Some?)
    && (forall i, j :: 0 <= i < j < |st.settlements| ==> st.settlements[i].positionId != st.settlements[j].positionId)
    && (forall i, j :: 0 <= i < j < |st.settlements| ==> st.settlements[i].requestId != st.settlements[j].requestId)
  }

  /** The balance is the starting balance less what open positions cost plus what settled ones realized. */
  ghost predicate Conserved(setup: Setup, st: State) {
    Balance(setup, st) == setup.settings.startingBalance - OpenCost(st) + Realized(st)
  }

  /** Open cost stays within the exposure fraction of cost-basis equity, and cash never runs out. */
  ghost predicate Solvent(setup: Setup, st: State) {
    && Balance(setup, st) > 0.0 && OpenCost(st) >= 0.0
    && OpenCost(st) <= Times(setup.settings.limits.exposure, Balance(setup, st) + OpenCost(st))
  }

  ghost predicate Inv(setup: Setup, st: State) {
    && Entries(setup, st) && AtMostOnce(st) && Decided(st) && Settled(st)
    && Conserved(setup, st) && Solvent(setup, st)
  }

  lemma EmptyHolds(setup: Setup)
    requires setup.Valid()
    ensures Inv(setup, Empty())
  {
    Mono(setup.settings.limits.exposure, 0.0, setup.settings.startingBalance);
    Units(setup.settings.limits.exposure);
  }

  // ---- Sizing and quoting agree ----

  /** The quote of an approved quantity totals exactly the notional that was sized. */
  lemma QuoteEqualsNotional(ask: real, shares: real, fee: real, slippage: real)
    requires 0.0 <= ask <= 1.0 && shares > 0.0 && fee >= 0.0 && slippage >= 0.0
    ensures EstimateEntry(ask, shares, fee, slippage).Ok?
    ensures var q := EstimateEntry(ask, shares, fee, slippage).value;
      && q.total == shares * (Min(1.0, ask + slippage) * (1.0 + fee))
      && q.total == q.entryPrice * q.shares + q.fees && q.fees >= 0.0 && q.shares == shares
      && q.entryPrice == Min(1.0, ask + slippage)
  {
    var price := Min(1.0, ask + slippage);
    assert shares * (price * (1.0 + fee)) == price * shares + price * shares * fee;
    assert price * shares >= 0.0;
    assert price * shares * fee >= 0.0;
  }

  /** An approved sizing costs at most either cap, whatever its other inputs. */
  lemma ApprovedCost(o: SizingInput, limits: RiskLimits)
    requires InputError(o).None? && SizeOrder(o, limits).value.approved && o.fees == 0.0 && o.slippage == 0.0
    ensures var d := SizeOrder(o, limits).value;
      && d.shares >= 0.0 && d.notional == d.shares * o.price
      && d.notional <= Times(o.balance, limits.trade)
      && o.currentExposure + d.notional <= Times(o.balance, limits.exposure)
  {
    hide SizeOrder;
    ApprovedIsLargest(o, limits);
  }

  lemma AcceptedInput(o: SizingInput, limits: RiskLimits)
    requires SizeOrder(o, limits).Ok?
    ensures InputError(o).None?
  {
  }

  /** The sizing call of a trade, and the trade's quote, in a ledger that satisfies the invariant. */
  lemma TradeFits(setup: Setup, st: State, b: PaperLedger.BoundRequest, now: int)
    requires setup.Valid() && Solvent(setup, st) && b.signalId in setup.signals
    ensures var o := SizingFor(setup, st, b, now); var ask := setup.signals[b.signalId].ask;
      var sized := SizeOrder(o, setup.settings.limits);
      sized.Ok? && sized.value.approved && sized.value.shares > 0.0 ==>
        var q := EstimateEntry(ask, sized.value.shares, setup.settings.fee, setup.settings.slippage);
        && q.Ok? && q.value.total == sized.value.notional
        && q.value.total <= Times(o.balance, setup.settings.limits.trade)
        && OpenCost(st) + q.value.total <= Times(o.balance, setup.settings.limits.exposure)
        && q.value.total < o.balance
  {
    hide SizeOrder, EstimateEntry, Times, OpenCost;
    var o := SizingFor(setup, st, b, now);
    var ask := setup.signals[b.signalId].ask;
    var sized := SizeOrder(o, setup.settings.limits);
    if sized.Ok? && sized.value.approved && sized.value.shares > 0.0 {
      AcceptedInput(o, setup.settings.limits);
      ApprovedCost(o, setup.settings.limits);
      QuoteEqualsNotional(ask, sized.value.shares, setup.settings.fee, setup.settings.slippage);
      TradeCapBelow(o.balance, setup.settings.limits.trade);
    }
  }

  lemma TradeCapBelow(balance: real, trade: real)
    requires balance > 0.0 && trade <= 0.05
    ensures Times(balance, trade) < balance
  {
    Mono(balance, trade, 0.05);
    assert Times(balance, 0.05) < balance;
  }

  /** The trade of a solvent ledger never exceeds its balance. */
  lemma TradeWithinBalance(setup: Setup, st: State, b: PaperLedger.BoundRequest, now: int)
    requires setup.Valid() && Solvent(setup, st) && b.signalId in setup.signals
    ensures Trade(setup, st, b, now).result != Err(ExceedsBalance)
  {
    hide SizeOrder, EstimateEntry, SizingFor, Solvent, Filled;
    var sized := SizeOrder(SizingFor(setup, st, b, now), setup.settings.limits);
    TradeFits(setup, st, b, now);
    if sized.Ok? {
      QuoteNeedsShares(setup.signals[b.signalId].ask, sized.value.shares, setup.settings);
    }
  }

  lemma QuoteNeedsShares(ask: real, shares: real, settings: Settings)
    ensures EstimateEntry(ask, shares, settings.fee, settings.slippage).Ok? ==> shares > 0.0
    ensures EstimateEntry(ask, shares, settings.fee, settings.slippage) != Err(ExceedsBalance)
  {
  }

  /** The "exceeds available balance" guard can never fire, and the debit leaves most of the cash. */
  lemma BalanceGuardNeverFires(setup: Setup, st: State, req: ExecuteRequest)
    requires setup.Valid() && Inv(setup, st)
    ensures Execute(setup, st, req).result != Err(ExceedsBalance)
  {
    hide Bind, Trade, EligibilityReasons, ExecutionResultOf, DecisionFor, DecisionByRequest;
    OtherErrors(setup, st, req);
    if Bind(setup, req).Ok? {
      TradeWithinBalance(setup, st, Bind(setup, req).value, req.now);
    }
  }

  /** Neither binding a request nor re-reading a decision reports this error. */
  lemma OtherErrors(setup: Setup, st: State, req: ExecuteRequest)
    ensures Bind(setup, req) != Err(ExceedsBalance)
    ensures Bind(setup, req).Ok? ==> Bind(setup, req).value.signalId in setup.signals
    ensures forall d :: ExecutionResultOf(st, d) != Err(ExceedsBalance)
  {
  }

  // ---- Each transaction keeps the invariant ----

  /** A signal without a decision has no position. */
  lemma UndecidedHasNoPosition(st: State, signalId: int)
    requires Decided(st) && DecisionFor(st.decisions, signalId).None?
    ensures PositionFor(st.positions, signalId).None?
  {
    hide DecisionFor, PositionFor;
    forall i | 0 <= i < |st.positions| ensures st.positions[i].signalId != signalId {
      assert DecisionFor(st.decisions, st.positions[i].signalId).Some?;
    }
  }

  /** Appending a first decision keeps decisions unique and leaves every other look-up as it was. */
  lemma AppendDecision(st: State, d: Decision, decided: State)
    requires AtMostOnce(st)
    requires DecisionFor(st.decisions, d.signalId).None? && DecisionByRequest(st.decisions, d.requestId).None?
    requires decided.decisions == st.decisions + [d] && decided.positions == st.positions
    ensures AtMostOnce(decided)
    ensures forall s :: DecisionFor(st.decisions, s).Some? ==> DecisionFor(decided.decisions, s).Some?
    ensures DecisionFor(decided.decisions, d.signalId).Some?
  {
    hide DecisionFor, DecisionByRequest;
    assert decided.decisions[|st.decisions|] == d;
    forall s | DecisionFor(st.decisions, s).Some? ensures DecisionFor(decided.decisions, s).Some? {
      assert decided.decisions[DecisionFor(st.decisions, s).value].signalId == s;
    }
  }

  /** Recording a rejection, with or without writing the balance row, changes no money and keeps the invariant. */
  lemma RejectionKeeps(setup: Setup, st: State, d: Decision, balance: Option<real>)
    requires Inv(setup, st) && !d.approved && balance in [st.balance, Some(Balance(setup, st))]
    requires DecisionFor(st.decisions, d.signalId).None? && DecisionByRequest(st.decisions, d.requestId).None?
    ensures Inv(setup, st.(balance := balance, decisions := st.decisions + [d]))
  {
    hide DecisionFor, DecisionByRequest, EntryOk, Settled, AtMostOnce, Decided;
    var decided := st.(balance := balance, decisions := st.decisions + [d]);
    AppendDecision(st, d, decided);
    RejectedDecided(st, d, decided);
    assert Balance(setup, decided) == Balance(setup, st);
    SameSettled(st, decided);
  }

  lemma RejectedDecided(st: State, d: Decision, decided: State)
    requires Decided(st) && !d.approved && DecisionFor(st.decisions, d.signalId).None?
    requires decided.decisions == st.decisions + [d] && decided.positions == st.positions
    requires forall s :: DecisionFor(st.decisions, s).Some? ==> DecisionFor(decided.decisions, s).Some?
    ensures Decided(decided)
  {
    hide DecisionFor, PositionFor;
    UndecidedHasNoPosition(st, d.signalId);
    forall k | 0 <= k < |decided.decisions| ensures DecisionOk(decided, decided.decisions[k]) {
      assert k < |st.decisions| ==> DecisionOk(st, st.decisions[k]);
    }
  }

  lemma SameSettled(st: State, after: State)
    requires Settled(st) && after.positions == st.positions && after.settlements == st.settlements
    ensures Settled(after)
  {
    hide SettlementFor;
    forall k | 0 <= k < |st.settlements| ensures SettlementOk(after, st.settlements[k]) {
      assert SettlementOk(st, st.settlements[k]);
    }
  }

  /** Writing the order, fill and position of an approved first decision, and debiting its cost, keeps the invariant. */
  lemma FillKeeps(setup: Setup, st: State, d: Decision, ask: real, q: EntryQuote, now: int)
    requires Inv(setup, st) && d.approved && d.signalId in setup.signals && setup.signals[d.signalId].ask == ask
    requires DecisionFor(st.decisions, d.signalId).None? && DecisionByRequest(st.decisions, d.requestId).None?
    requires q.shares > 0.0 && q.fees >= 0.0 && q.shares == d.approvedShares
    requires q.total == q.entryPrice * q.shares + q.fees && 0.0 < q.total < Balance(setup, st)
    requires OpenCost(st) + q.total <= Times(setup.settings.limits.exposure, Balance(setup, st))
    requires 0.0 < setup.settings.limits.exposure
    ensures Inv(setup, Filled(st.(balance := Some(Balance(setup, st)), decisions := st.decisions + [d]),
      d.signalId, ask, q, Balance(setup, st), now))
  {
    hide DecisionFor, DecisionByRequest, PositionFor, EntryOk, SettlementOk, SettlementFor, Entries, AtMostOnce,
      Decided, Settled, Conserved, Solvent, Times;
    var decided := st.(balance := Some(Balance(setup, st)), decisions := st.decisions + [d]);
    var filled := Filled(decided, d.signalId, ask, q, Balance(setup, st), now);
    UndecidedHasNoPosition(st, d.signalId);
    AppendDecision(st, d, decided);
    FilledRows(setup, st, d, ask, q, now, filled);
    assert filled.positions[..|st.positions|] == st.positions;
    FilledDecided(st, d, filled);
    FilledSettled(st, filled);
    FilledMoney(setup, st, filled, q.total);
  }

  lemma FilledRows(setup: Setup, st: State, d: Decision, ask: real, q: EntryQuote, now: int, filled: State)
    requires Entries(setup, st) && d.signalId in setup.signals && setup.signals[d.signalId].ask == ask
    requires q.shares > 0.0 && q.fees >= 0.0 && q.total == q.entryPrice * q.shares + q.fees && q.total > 0.0
    requires filled == Filled(st.(balance := Some(Balance(setup, st)), decisions := st.decisions + [d]),
      d.signalId, ask, q, Balance(setup, st), now)
    ensures Entries(setup, filled)
  {
    var n := |st.positions|;
    forall i | 0 <= i < n + 1 ensures EntryOk(setup, filled.orders[i], filled.fills[i], filled.positions[i], i) {
      if i < n {
        assert EntryOk(setup, st.orders[i], st.fills[i], st.positions[i], i);
      } else {
        assert q.shares * q.entryPrice == q.entryPrice * q.shares;
      }
    }
  }

  /** With the new position last and its decision recorded, decisions and positions still point at each other. */
  lemma FilledDecided(st: State, d: Decision, filled: State)
    requires AtMostOnce(st) && Decided(st) && d.approved
    requires DecisionFor(st.decisions, d.signalId).None? && PositionFor(st.positions, d.signalId).None?
    requires DecisionByRequest(st.decisions, d.requestId).None?
    requires filled.decisions == st.decisions + [d]
    requires |filled.positions| == |st.positions| + 1 && filled.positions[..|st.positions|] == st.positions
    requires var p := filled.positions[|st.positions|]; p.signalId == d.signalId && p.shares == d.approvedShares
    ensures AtMostOnce(filled) && Decided(filled)
  {
    hide DecisionFor, DecisionByRequest, PositionFor;
    var n := |st.positions|;
    var withDecision := st.(decisions := filled.decisions);
    AppendDecision(st, d, withDecision);
    assert forall i :: 0 <= i < n ==> filled.positions[i] == st.positions[i];
    forall k | 0 <= k < |filled.decisions| ensures DecisionOk(filled, filled.decisions[k]) {
      var e := filled.decisions[k];
      if k < |st.decisions| {
        assert DecisionOk(st, st.decisions[k]) && e.signalId != d.signalId;
      }
      PositionForAppended(st.positions, filled.positions, e.signalId);
    }
    forall i | 0 <= i <= n ensures DecisionFor(filled.decisions, filled.positions[i].signalId).Some? {
      if i < n {
        assert DecisionFor(st.decisions, st.positions[i].signalId).Some?;
      }
    }
  }

  lemma PositionForAppended(before: seq<Position>, after: seq<Position>, signalId: int)
    requires |after| == |before| + 1 && after[..|before|] == before
    ensures PositionFor(after, signalId) ==
      if PositionFor(before, signalId).Some? then PositionFor(before, signalId)
      else if after[|before|].signalId == signalId then Some(|before|) else None
  {
    hide PositionFor;
    assert forall i :: 0 <= i < |before| ==> after[i] == before[i];
    var b, a := PositionFor(before, signalId), PositionFor(after, signalId);
    if b.Some? && a.Some? {
      assert !(a.value < b.value) && !(b.value < a.value);
    }
  }

  lemma FilledSettled(st: State, filled: State)
    requires Settled(st) && filled.settlements == st.settlements
    requires |filled.positions| == |st.positions| + 1 && filled.positions[..|st.positions|] == st.positions
    requires filled.positions[|st.positions|].open
    ensures Settled(filled)
  {
    hide SettlementFor;
    assert forall i :: 0 <= i < |st.positions| ==> filled.positions[i] == st.positions[i];
    forall k | 0 <= k < |filled.settlements| ensures SettlementOk(filled, filled.settlements[k]) {
      assert SettlementOk(st, st.settlements[k]);
    }
  }

  /** The debit equals the cost of the position it opens. */
  lemma FilledMoney(setup: Setup, st: State, filled: State, total: real)
    requires Conserved(setup, st) && Solvent(setup, st) && filled.settlements == st.settlements
    requires |filled.positions| == |st.positions| + 1 && filled.positions[..|st.positions|] == st.positions
    requires filled.positions[|st.positions|].open && filled.positions[|st.positions|].amount == total
    requires filled.balance == Some(Balance(setup, st) - total) && 0.0 < total < Balance(setup, st)
    requires 0.0 < setup.settings.limits.exposure
    requires OpenCost(st) + total <= Times(setup.settings.limits.exposure, Balance(setup, st))
    ensures Conserved(setup, filled) && Solvent(setup, filled)
  {
    hide Times;
    assert filled.positions == st.positions + [filled.positions[|st.positions|]];
    SumSnoc(st.positions, filled.positions[|st.positions|], OpenAmount);
    assert OpenCost(filled) == OpenCost(st) + total;
    Mono(setup.settings.limits.exposure, Balance(setup, st), Balance(setup, filled) + OpenCost(filled));
  }

  lemma SizingReads(setup: Setup, st: State, b: PaperLedger.BoundRequest, now: int)
    requires b.signalId in setup.signals
    ensures SizingFor(setup, st, b, now).balance == Balance(setup, st)
  {
  }

  lemma InvParts(setup: Setup, st: State)
    requires Inv(setup, st)
    ensures Solvent(setup, st)
  {
  }

  lemma TradeKeeps(setup: Setup, st: State, b: PaperLedger.BoundRequest, now: int)
    requires setup.Valid() && Inv(setup, st) && b.signalId in setup.signals
    requires DecisionFor(st.decisions, b.signalId).None? && DecisionByRequest(st.decisions, b.requestId).None?
    ensures Inv(setup, Trade(setup, st, b, now).state)
  {
    hide Inv, SizingFor, SizeOrder, EstimateEntry, Filled, Times, DecisionFor, DecisionByRequest, PositionFor;
    SizingReads(setup, st, b, now);
    InvParts(setup, st);
    var o := SizingFor(setup, st, b, now);
    var sized := SizeOrder(o, setup.settings.limits);
    if sized.Ok? {
      var d := Decision(b.signalId, b.requestId, b.actor, b.requested, b.required, sized.value.approved,
        sized.value.reasons, sized.value.shares, o.balance, o.currentExposure, o.dailyPnl, now);
      if !sized.value.approved {
        RejectionKeeps(setup, st, d, Some(o.balance));
      } else {
        var ask := setup.signals[b.signalId].ask;
        var quote := EstimateEntry(ask, sized.value.shares, setup.settings.fee, setup.settings.slippage);
        TradeFits(setup, st, b, now);
        if quote.Ok? && quote.value.total <= o.balance && ask > 0.0 {
          QuotePositive(ask, sized.value.shares, setup.settings.fee, setup.settings.slippage);
          TimesCommutes(o.balance, setup.settings.limits.exposure);
          FillKeeps(setup, st, d, ask, quote.value, now);
        }
      }
    }
  }

  lemma TimesCommutes(a: real, b: real)
    ensures Times(a, b) == Times(b, a)
  {
  }

  lemma QuotePositive(ask: real, shares: real, fee: real, slippage: real)
    requires EstimateEntry(ask, shares, fee, slippage).Ok? && ask > 0.0
    ensures var q := EstimateEntry(ask, shares, fee, slippage).value;
      q.total > 0.0 && q.fees >= 0.0 && q.shares == shares > 0.0 && q.total == q.entryPrice * q.shares + q.fees
  {
    assert Min(1.0, ask + slippage) * shares > 0.0;
    assert Min(1.0, ask + slippage) * shares * fee >= 0.0;
  }

  /** Executing any request, whatever it returns, keeps the invariant. */
  lemma ExecuteKeeps(setup: Setup, st: State, req: ExecuteRequest)
    requires setup.Valid() && Inv(setup, st)
    ensures Inv(setup, Execute(setup, st, req).state)
  {
    hide Trade, Inv;
    var bound := Bind(setup, req);
    if bound.Ok? && DecisionFor(st.decisions, bound.value.signalId).None?
       && DecisionByRequest(st.decisions, bound.value.requestId).None? {
      var b := bound.value;
      var reasons := EligibilityReasons(req.gate, req.now);
      if reasons != [] {
        var d := Decision(b.signalId, b.requestId, b.actor, b.requested, b.required, false, reasons, 0.0,
          Balance(setup, st), 0.0, 0.0, req.now);
        RejectionKeeps(setup, st, d, st.balance);
      } else {
        TradeKeeps(setup, st, b, req.now);
      }
    }
  }

  /** Replacing a position by one for the same signal and size leaves the look-ups as they were. */
  lemma ReplacePosition(st: State, i: nat, p: Position, after: State)
    requires i < |st.positions| && AtMostOnce(st) && Decided(st)
    requires p.signalId == st.positions[i].signalId && p.shares == st.positions[i].shares
    requires after.positions == st.positions[i := p] && after.decisions == st.decisions
    ensures AtMostOnce(after) && Decided(after)
  {
    hide DecisionFor, PositionFor;
    assert forall j :: 0 <= j < |st.positions| ==>
      after.positions[j].signalId == st.positions[j].signalId && after.positions[j].shares == st.positions[j].shares;
    forall k | 0 <= k < |st.decisions| ensures DecisionOk(after, st.decisions[k]) {
      assert DecisionOk(st, st.decisions[k]);
      var was, now := PositionFor(st.positions, st.decisions[k].signalId), PositionFor(after.positions, st.decisions[k].signalId);
      if was.Some? && now.Some? {
        assert !(was.value < now.value) && !(now.value < was.value);
      }
    }
    forall j | 0 <= j < |after.positions| ensures DecisionFor(after.decisions, after.positions[j].signalId).Some? {
      assert DecisionFor(st.decisions, st.positions[j].signalId).Some?;
    }
  }

  lemma ReplaceEntry(setup: Setup, st: State, i: nat, p: Position, after: State)
    requires Entries(setup, st) && i < |st.positions| && EntryOk(setup, st.orders[i], st.fills[i], p, i)
    requires after.positions == st.positions[i := p] && after.orders == st.orders && after.fills == st.fills
    ensures Entries(setup, after)
  {
    hide EntryOk;
  }

  lemma MarkKeeps(setup: Setup, st: State, positionId: int, mark: real)
    requires Inv(setup, st)
    ensures Inv(setup, Mark(st, positionId, mark).state)
  {
    hide Times, SettlementFor, PositionFor, DecisionFor, DecisionOk;
    var after := Mark(st, positionId, mark).state;
    if Mark(st, positionId, mark).result.Ok? {
      var p := after.positions[positionId];
      ReplacePosition(st, positionId, p, after);
      MarkedEntry(setup, st, positionId, mark);
      ReplaceEntry(setup, st, positionId, p, after);
      MarkedSettled(st, positionId, p, after);
      SumUpdate(st.positions, positionId, p, OpenAmount);
    }
  }

  lemma MarkedEntry(setup: Setup, st: State, i: nat, mark: real)
    requires Entries(setup, st) && i < |st.positions| && st.positions[i].open
    ensures var p := st.positions[i];
      EntryOk(setup, st.orders[i], st.fills[i], p.(mark := mark, unrealized := Times(p.shares, mark) - p.amount), i)
  {
    assert EntryOk(setup, st.orders[i], st.fills[i], st.positions[i], i);
  }

  lemma MarkedSettled(st: State, i: nat, p: Position, after: State)
    requires Settled(st) && i < |st.positions| && st.positions[i].open && p.open
    requires after.positions == st.positions[i := p] && after.settlements == st.settlements
    ensures Settled(after)
  {
    hide SettlementFor;
    forall k | 0 <= k < |after.settlements| ensures SettlementOk(after, after.settlements[k]) {
      assert SettlementOk(st, st.settlements[k]);
    }
  }

  /** Paying an open position once closes its books and keeps the invariant. */
  lemma PaidKeeps(setup: Setup, st: State, req: SettleRequest, outcome: Outcome, won: bool, probability: real)
    requires setup.Valid() && Inv(setup, st) && 0 <= req.positionId < |st.positions| && st.positions[req.positionId].open
    requires SettlementFor(st.settlements, req.positionId).None?
    requires SettlementByRequest(st.settlements, SettleRequestId(req)).None?
    ensures Inv(setup, Paid(setup, st, req, outcome, won, probability))
  {
    hide Times, SettlementFor, SettlementByRequest, PositionFor, DecisionFor, DecisionOk, EntryOk, SettlementOk,
      SettleRequestId, KeyOf, Entries, AtMostOnce, Decided, Settled, Conserved, Solvent;
    var after := Paid(setup, st, req, outcome, won, probability);
    var i, p := req.positionId, after.positions[req.positionId];
    ReplacePosition(st, i, p, after);
    ClosedEntry(setup, st, i, p);
    ReplaceEntry(setup, st, i, p, after);
    assert after.settlements[..|st.settlements|] == st.settlements;
    PaidRow(st, after, i, won);
    PaidSettled(st, after, i);
    PaidMoney(setup, st, after, i);
  }

  lemma ClosedEntry(setup: Setup, st: State, i: nat, p: Position)
    requires Entries(setup, st) && i < |st.positions|
    requires p == st.positions[i].(open := false, mark := p.mark, unrealized := 0.0, realized := p.realized)
    ensures EntryOk(setup, st.orders[i], st.fills[i], p, i)
    ensures st.positions[i].amount > 0.0 && st.positions[i].shares > 0.0
  {
    assert EntryOk(setup, st.orders[i], st.fills[i], st.positions[i], i);
  }

  lemma PaidRow(st: State, after: State, i: nat, won: bool)
    requires i < |st.positions| && |after.positions| == |st.positions|
    requires |after.settlements| == |st.settlements| + 1
    requires var s := after.settlements[|st.settlements|]; var p := after.positions[i];
      && s.positionId == i && s.won == won && s.payout == (if won then st.positions[i].shares else 0.0)
      && s.realized == s.payout - st.positions[i].amount == p.realized
      && !p.open && p.shares == st.positions[i].shares && p.amount == st.positions[i].amount
    ensures SettlementOk(after, after.settlements[|st.settlements|])
  {
  }

  lemma PaidSettled(st: State, after: State, i: nat)
    requires i < |st.positions| == |after.positions| && st.positions[i].open && Settled(st)
    requires SettlementFor(st.settlements, i).None?
    requires |after.settlements| == |st.settlements| + 1 && after.settlements[..|st.settlements|] == st.settlements
    requires SettlementOk(after, after.settlements[|st.settlements|])
    requires after.settlements[|st.settlements|].positionId == i
    requires SettlementByRequest(st.settlements, after.settlements[|st.settlements|].requestId).None?
    requires after.positions == st.positions[i := after.positions[i]]
    ensures Settled(after)
  {
    hide SettlementFor, SettlementByRequest, SettlementOk;
    var n := |st.settlements|;
    assert forall k :: 0 <= k < n ==> after.settlements[k] == st.settlements[k];
    forall k | 0 <= k <= n ensures SettlementOk(after, after.settlements[k]) {
      if k < n {
        SettlementUntouched(st, after, i, st.settlements[k]);
      }
    }
    forall j | 0 <= j < |after.positions| && !after.positions[j].open
      ensures SettlementFor(after.settlements, j).Some?
    {
      if j != i {
        var k := SettlementFor(st.settlements, j).value;
        assert after.settlements[k].positionId == j;
      }
    }
  }

  /** Paying an open position leaves the settlements of closed ones correct. */
  lemma SettlementUntouched(st: State, after: State, i: nat, s: SettlementRow)
    requires i < |st.positions| == |after.positions| && st.positions[i].open && SettlementOk(st, s)
    requires after.positions == st.positions[i := after.positions[i]]
    ensures SettlementOk(after, s)
  {
  }

  /** Cost leaves the open book as its proceeds reach the balance; the exposure bound only relaxes. */
  lemma PaidMoney(setup: Setup, st: State, after: State, i: nat)
    requires setup.Valid() && Conserved(setup, st) && Solvent(setup, st) && Entries(setup, st)
    requires i < |st.positions| == |after.positions| && st.positions[i].open
    requires after.positions == st.positions[i := after.positions[i]]
    requires !after.positions[i].open
    requires |after.settlements| == |st.settlements| + 1 && after.settlements[..|st.settlements|] == st.settlements
    requires var s := after.settlements[|st.settlements|];
      s.realized == s.payout - st.positions[i].amount && s.payout >= 0.0
      && after.balance == Some(Balance(setup, st) + s.payout)
    ensures Conserved(setup, after) && Solvent(setup, after)
  {
    hide Times;
    var s, a, f := after.settlements[|st.settlements|], st.positions[i].amount, setup.settings.limits.exposure;
    SumUpdate(st.positions, i, after.positions[i], OpenAmount);
    assert after.settlements == st.settlements + [s];
    SumSnoc(st.settlements, s, RealizedOf);
    assert EntryOk(setup, st.orders[i], st.fills[i], st.positions[i], i);
    OpenCostNonNegative(setup, after, st);
    var e := Balance(setup, st) + OpenCost(st);
    Distribute(e - a, a, f);
    Mono(a, f, 1.0);
    Units(a);
    Mono(f, e - a, e - a + s.payout);
  }

  lemma OpenCostNonNegative(setup: Setup, after: State, st: State)
    requires Entries(setup, st) && |after.positions| == |st.positions|
    requires forall i :: 0 <= i < |st.positions| ==> after.positions[i].open ==> after.positions[i].amount == st.positions[i].amount
    ensures OpenCost(after) >= 0.0
  {
    forall p | p in after.positions ensures 0.0 <= OpenAmount(p) {
      var i :| 0 <= i < |after.positions| && after.positions[i] == p;
      assert EntryOk(setup, st.orders[i], st.fills[i], st.positions[i], i);
    }
    SumNonNegative(after.positions, OpenAmount);
  }

  /** Settling any request, whatever it returns, keeps the invariant. */
  lemma SettleKeeps(setup: Setup, st: State, req: SettleRequest)
    requires setup.Valid() && Inv(setup, st) && req.Valid()
    ensures Inv(setup, Settle(setup, st, req).state)
  {
    hide Inv, Paid, Derive, SettleRequestId, KeyOf;
    if Settle(setup, st, req).state != st {
      var signal := setup.signals[st.positions[req.positionId].signalId];
      var outcome := Derive(req.contract.value, signal.title, req.evidence);
      PaidKeeps(setup, st, req, outcome.value, Won(req.contract.value, signal.title, outcome.value), signal.probability);
    }
  }
}
