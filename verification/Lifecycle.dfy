/** `PaperLifecycle` and `SettlementWorker` over stored rows, each call one serialized transaction. */
module Lifecycle {
  import opened Outcomes
  import opened Products
  import opened Text
  import opened Risk
  import opened Settlement
  import opened PaperLedger
  import opened PaperInvariant
  import opened PaperRuns
  import opened PaperAnswers

  class PaperLifecycle {
    const setup: Setup
    var balance: Option<real>
    var decisions: seq<Decision>
    var orders: seq<Order>
    var fills: seq<Fill>
    var positions: seq<Position>
    var settlements: seq<SettlementRow>

    function Rows(): State
      reads this
    {
      State(balance, decisions, orders, fills, positions, settlements)
    }

    ghost predicate Valid()
      reads this
    {
      setup.Valid() && Inv(setup, Rows())
    }

    constructor (setup: Setup)
      requires setup.Valid()
      ensures Valid() && this.setup == setup && Rows() == Empty()
    {
      this.setup := setup;
      balance, decisions, orders, fills, positions, settlements := None, [], [], [], [], [];
      new;
      EmptyHolds(setup);
    }

    /** `_locked_paper_balance`: read the balance row, creating it with the starting balance. */
    method LockedBalance() returns (b: real)
      modifies this`balance
      ensures b == Balance(setup, old(Rows())) && balance == Some(b)
    {
      if balance.None? {
        balance := Some(setup.settings.startingBalance);
      }
      b := balance.value;
    }

    method ExecuteSignal(req: ExecuteRequest) returns (r: Result<ExecutionResult, PaperError>)
      requires Valid()
      modifies this
      ensures Rows() == Execute(setup, old(Rows()), req).state && r == Execute(setup, old(Rows()), req).result
      ensures Valid()
    {
      hide Inv, Bind, SizeOrder, EstimateEntry, EligibilityReasons, ExecutionResultOf, Matches, DecisionFor, DecisionByRequest;
      ghost var before := Rows();
      ExecuteKeeps(setup, before, req);
      var bound := Bind(setup, req);
      if bound.Err? {
        return Err(bound.error);
      }
      var b := bound.value;
      var existing := DecisionFor(decisions, b.signalId);
      if existing.Some? {
        var d := decisions[existing.value];
        if !Matches(d, b) {
          return Err(IdempotencyConflict(b.requestId));
        }
        return ExecutionResultOf(Rows(), d);
      }
      if DecisionByRequest(decisions, b.requestId).Some? {
        return Err(IdempotencyConflict(b.requestId));
      }
      var reasons := EligibilityReasons(req.gate, req.now);
      if reasons != [] {
        decisions := decisions + [Decision(b.signalId, b.requestId, b.actor, b.requested, b.required, false, reasons, 0.0,
          Balance(setup, Rows()), 0.0, 0.0, req.now)];
        return Ok(RejectedEntry(b.signalId, reasons));
      }
      BoundSignal(setup, req);
      r := TradeSignal(b, req.now);
    }

    /** Size the order, record the decision and, if it is approved, write the fill; an error rolls everything back. */
    method TradeSignal(b: BoundRequest, now: int) returns (r: Result<ExecutionResult, PaperError>)
      requires b.signalId in setup.signals
      modifies this
      ensures Rows() == Trade(setup, old(Rows()), b, now).state && r == Trade(setup, old(Rows()), b, now).result
    {
      hide SizeOrder, EstimateEntry;
      var savedBalance, savedDecisions := balance, decisions;
      var sizing := SizingFor(setup, Rows(), b, now);
      var cash := LockedBalance();
      var sized := SizeOrder(sizing, setup.settings.limits);
      if sized.Err? {
        balance := savedBalance;
        return Err(RiskInputs(sized.error));
      }
      decisions := decisions + [Decision(b.signalId, b.requestId, b.actor, b.requested, b.required, sized.value.approved,
        sized.value.reasons, sized.value.shares, cash, sizing.currentExposure, sizing.dailyPnl, now)];
      if !sized.value.approved {
        return Ok(RejectedEntry(b.signalId, sized.value.reasons));
      }
      var ask := setup.signals[b.signalId].ask;
      var quote := EstimateEntry(ask, sized.value.shares, setup.settings.fee, setup.settings.slippage);
      if quote.Err? || quote.value.total > cash || ask <= 0.0 {
        balance, decisions := savedBalance, savedDecisions;
        return Err(if quote.Err? then quote.error else if quote.value.total > cash then ExceedsBalance else OrderConstraint);
      }
      var q := quote.value;
      var orderId := |orders|;
      r := Ok(FilledEntry(b.signalId, orderId, |positions|, ask, q.shares));
      orders := orders + [Order(b.signalId, ask, q.shares, now)];
      fills := fills + [Fill(orderId, q.entryPrice, q.shares, q.fees, now)];
      positions := positions +
        [Position(b.signalId, orderId, now, q.entryPrice, q.total, q.shares, q.fees, true, q.entryPrice, -q.fees, 0.0)];
      balance := Some(cash - q.total);
    }

    method MarkPosition(positionId: int, mark: real) returns (r: Result<real, PaperError>)
      requires Valid()
      modifies this`positions
      ensures Rows() == Mark(old(Rows()), positionId, mark).state && r == Mark(old(Rows()), positionId, mark).result
      ensures MarkAnswers(old(Rows()), positionId, mark, Rows(), r)
      ensures Valid()
    {
      MarkIsAnswered(Rows(), positionId, mark);
      hide Inv, Times, MarkAnswers;
      MarkKeeps(setup, Rows(), positionId, mark);
      if mark < 0.0 || mark > 1.0 {
        return Err(MarkOutOfRange);
      }
      if !(0 <= positionId < |positions|) || !positions[positionId].open {
        return Err(NotOpen);
      }
      var p := positions[positionId];
      var unrealized := Times(p.shares, mark) - p.amount;
      positions := positions[positionId := p.(mark := mark, unrealized := unrealized)];
      return Ok(unrealized);
    }

    method SettlePosition(req: SettleRequest) returns (r: Result<SettlementResult, PaperError>)
      requires Valid() && req.Valid()
      modifies this
      ensures Rows() == Settle(setup, old(Rows()), req).state && r == Settle(setup, old(Rows()), req).result
      ensures Valid()
    {
      hide Inv, Derive, Won, KeyOf, SettleRequestId, SettlementMatches, SettlementFor, SettlementByRequest;
      ghost var before := Rows();
      SettleKeeps(setup, before, req);
      var actor, rid := Strip(req.actor), SettleRequestId(req);
      if actor == "" {
        return Err(ActorRequired);
      }
      if !(0 <= req.positionId < |positions|) {
        return Err(NotOpen);
      }
      var existing := SettlementFor(settlements, req.positionId);
      if existing.Some? {
        if !SettlementMatches(settlements[existing.value], req) {
          return Err(IdempotencyConflict(rid));
        }
        return Ok(SettlementResultOf(Rows(), existing.value));
      }
      if SettlementByRequest(settlements, rid).Some? {
        return Err(IdempotencyConflict(rid));
      }
      var p := positions[req.positionId];
      if !p.open {
        return Err(NotOpen);
      }
      if p.signalId !in setup.signals || setup.signals[p.signalId].contractId.None? {
        return Err(ContractMissing);
      }
      if req.contract.None? || !req.contract.value.accepted {
        return Err(ContractNotAccepted);
      }
      var signal := setup.signals[p.signalId];
      var outcome := Derive(req.contract.value, signal.title, req.evidence);
      if outcome.Err? {
        return Err(Underivable(outcome.error));
      }
      var won := Won(req.contract.value, signal.title, outcome.value);
      var payout := if won then p.shares else 0.0;
      var realized := payout - p.amount;
      var observed := if won then 1.0 else 0.0;
      var miss := signal.probability - observed;
      settlements := settlements + [SettlementRow(req.positionId, rid, actor, KeyOf(req.evidence), outcome.value,
        req.settledAt, won, payout, realized, miss * miss)];
      positions := positions[req.positionId :=
        p.(open := false, mark := observed, unrealized := 0.0, realized := realized)];
      var cash := LockedBalance();
      balance := Some(cash + payout);
      PaidRows(setup, before, req, outcome.value, won, signal.probability, p, miss * miss);
      return Ok(SettlementResultOf(Rows(), |settlements| - 1));
    }

    /** One polling unit: fetch outside the transaction, settle, and turn any failure into an error row. */
    method SettleOne(pass: Pass, id: nat) returns (row: PassRow)
      requires Valid() && pass.Valid()
      modifies this
      ensures Rows() == SettleDue(setup, old(Rows()), pass, id).0 && row == SettleDue(setup, old(Rows()), pass, id).1
      ensures Valid()
    {
      hide Inv, Settle, ScheduledRequest;
      if id !in pass.fetched || id >= |positions| {
        return ErrorRow(id);
      }
      var step := SettlePosition(ScheduledRequest(setup, Rows(), pass, id));
      return if step.Ok? then SettledRow(step.value) else ErrorRow(id);
    }

    /** `SettlementWorker.run_due`: select the due positions once, then settle each on its own. */
    method RunDuePositions(pass: Pass) returns (rows: seq<PassRow>)
      requires Valid() && pass.Valid()
      modifies this
      ensures Rows() == RunDue(setup, old(Rows()), pass).0 && rows == RunDue(setup, old(Rows()), pass).1
      ensures Valid()
    {
      hide Inv, SettleDue, DueIds;
      rows := [];
      var due := DueIds(setup, Rows(), pass, |positions|);
      assert due[0..] == due;
      for i := 0 to |due|
        invariant Valid()
        invariant SettleAll(setup, old(Rows()), pass, due).0 == SettleAll(setup, Rows(), pass, due[i..]).0
        invariant SettleAll(setup, old(Rows()), pass, due).1 == rows + SettleAll(setup, Rows(), pass, due[i..]).1
      {
        assert due[i..][0] == due[i] && due[i..][1..] == due[i + 1..];
        var row := SettleOne(pass, due[i]);
        rows := rows + [row];
      }
    }
  }

  lemma PaidRows(
    setup: Setup, st: State, req: SettleRequest, outcome: Outcome, won: bool, probability: real, p: Position, brier: real)
    requires 0 <= req.positionId < |st.positions| && p == st.positions[req.positionId]
    requires brier == (probability - (if won then 1.0 else 0.0)) * (probability - (if won then 1.0 else 0.0))
    ensures var payout := if won then p.shares else 0.0;
      Paid(setup, st, req, outcome, won, probability) == st.(
        balance := Some(Balance(setup, st) + payout),
        settlements := st.settlements + [SettlementRow(req.positionId, SettleRequestId(req), Strip(req.actor),
          KeyOf(req.evidence), outcome, req.settledAt, won, payout, payout - p.amount, brier)],
        positions := st.positions[req.positionId :=
          p.(open := false, mark := if won then 1.0 else 0.0, unrealized := 0.0, realized := payout - p.amount)])
  {
    hide SettleRequestId, KeyOf;
  }

  lemma BoundSignal(setup: Setup, req: ExecuteRequest)
    requires Bind(setup, req).Ok?
    ensures Bind(setup, req).value.signalId in setup.signals
  {
  }
}
