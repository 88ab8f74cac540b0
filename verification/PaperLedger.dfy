/**
 * The paper ledger as values: what one committed transaction of `PaperLifecycle` does to the stored rows
 * (app/services/paper.py). Tables are append-only sequences whose row ids are positions in the sequence.
 */
module PaperLedger {
  import opened Outcomes
  import opened Products
  import opened Text
  import opened Sums
  import opened Risk
  import opened Settlement

  datatype Settings = Settings(startingBalance: real, fee: real, slippage: real, limits: RiskLimits) {
    /** The bounds app/config.py puts on these settings. */
    predicate Valid() {
      && startingBalance > 0.0 && 0.0 <= fee <= 1.0 && 0.0 <= slippage <= 1.0
      && 0.0 < limits.trade <= 0.05 && 0.0 < limits.exposure <= 0.25 && 0.0 < limits.dailyLoss <= 0.1
    }
  }

  /** A stored signal; `requiredSize` is None when the stored size is missing or not a number. */
  datatype Signal = Signal(
    fingerprint: string, ask: real, requiredSize: Option<real>, title: string, probability: real,
    contractId: Option<int>)

  /** Everything a ledger run holds fixed: the settings and the stored signals. */
  datatype Setup = Setup(settings: Settings, signals: map<int, Signal>) {
    predicate Valid() {
      settings.Valid() && forall id :: id in signals ==> 0.0 <= signals[id].ask <= 1.0
    }
  }

  // ---- Rows ----

  datatype Decision = Decision(
    signalId: int, requestId: string, actor: string, requested: real, required: real, approved: bool,
    reasons: seq<string>, approvedShares: real, balanceBefore: real, exposureBefore: real, dailyPnl: real,
    createdAt: int)

  datatype Order = Order(signalId: int, price: real, size: real, submittedAt: int)

  datatype Fill = Fill(orderId: nat, price: real, size: real, fee: real, filledAt: int)

  datatype Position = Position(
    signalId: int, orderId: nat, enteredAt: int, entryPrice: real, amount: real, shares: real, fees: real,
    open: bool, mark: real, unrealized: real, realized: real)

  /** The evidence fields a settlement request is bound to. */
  datatype EvidenceKey = EvidenceKey(
    contractId: int, source: string, observedAt: int, retrievedAt: int, rawHash: string, claimed: Option<Outcome>)

  datatype SettlementRow = SettlementRow(
    positionId: nat, requestId: string, actor: string, key: EvidenceKey, outcome: Outcome, settledAt: int,
    won: bool, payout: real, realized: real, brier: real)

  /** The committed rows. A missing balance row stands for the starting balance. */
  datatype State = State(
    balance: Option<real>, decisions: seq<Decision>, orders: seq<Order>, fills: seq<Fill>,
    positions: seq<Position>, settlements: seq<SettlementRow>)

  function Empty(): State {
    State(None, [], [], [], [], [])
  }

  datatype PaperError =
    | ActorRequired | SignalNotFound | MinimumMissing | MinimumInvalid | IdempotencyConflict(requestId: string)
    | RiskInputs(risk: RiskError) | InvalidQuote | ExceedsBalance | OrderConstraint | Incomplete
    | MarkOutOfRange | NotOpen | ContractMissing | ContractNotAccepted | Underivable(why: DeriveError)

  /** The rows after a call, and what the call returned or raised. An exception rolls the rows back. */
  datatype Step<R> = Step(state: State, result: Result<R, PaperError>)

  // ---- Look-ups ----

  function IndexOf<T>(xs: seq<T>, p: T -> bool): (r: Option<nat>)
    ensures r.Some? ==> r.value < |xs| && p(xs[r.value]) && forall j :: 0 <= j < r.value ==> !p(xs[j])
    ensures r.None? ==> forall j :: 0 <= j < |xs| ==> !p(xs[j])
  {
    if xs == [] then None
    else if p(xs[0]) then Some(0)
    else
      var rest := IndexOf(xs[1..], p);
      if rest.None? then None else Some(rest.value + 1)
  }

  function DecisionFor(ds: seq<Decision>, signalId: int): (r: Option<nat>)
    ensures r.Some? ==> r.value < |ds| && ds[r.value].signalId == signalId
    ensures forall j :: 0 <= j < (if r.Some? then r.value else |ds|) ==> ds[j].signalId != signalId
  {
    IndexOf(ds, (d: Decision) => d.signalId == signalId)
  }

  function DecisionByRequest(ds: seq<Decision>, requestId: string): (r: Option<nat>)
    ensures r.Some? ==> r.value < |ds| && ds[r.value].requestId == requestId
    ensures forall j :: 0 <= j < (if r.Some? then r.value else |ds|) ==> ds[j].requestId != requestId
  {
    IndexOf(ds, (d: Decision) => d.requestId == requestId)
  }

  function OrderFor(os: seq<Order>, signalId: int): (r: Option<nat>)
    ensures r.Some? ==> r.value < |os| && os[r.value].signalId == signalId
    ensures forall j :: 0 <= j < (if r.Some? then r.value else |os|) ==> os[j].signalId != signalId
  {
    IndexOf(os, (o: Order) => o.signalId == signalId)
  }

  function PositionFor(ps: seq<Position>, signalId: int): (r: Option<nat>)
    ensures r.Some? ==> r.value < |ps| && ps[r.value].signalId == signalId
    ensures forall j :: 0 <= j < (if r.Some? then r.value else |ps|) ==> ps[j].signalId != signalId
  {
    IndexOf(ps, (p: Position) => p.signalId == signalId)
  }

  function SettlementFor(rows: seq<SettlementRow>, positionId: nat): (r: Option<nat>)
    ensures r.Some? ==> r.value < |rows| && rows[r.value].positionId == positionId
    ensures forall j :: 0 <= j < (if r.Some? then r.value else |rows|) ==> rows[j].positionId != positionId
  {
    IndexOf(rows, (s: SettlementRow) => s.positionId == positionId)
  }

  function SettlementByRequest(rows: seq<SettlementRow>, requestId: string): (r: Option<nat>)
    ensures r.Some? ==> r.value < |rows| && rows[r.value].requestId == requestId
    ensures forall j :: 0 <= j < (if r.Some? then r.value else |rows|) ==> rows[j].requestId != requestId
  {
    IndexOf(rows, (s: SettlementRow) => s.requestId == requestId)
  }

  // ---- Money ----

  function Balance(setup: Setup, st: State): real {
    if st.balance.Some? then st.balance.value else setup.settings.startingBalance
  }

  function OpenAmount(p: Position): real { if p.open then p.amount else 0.0 }

  function OpenUnrealized(p: Position): real { if p.open then p.unrealized else 0.0 }

  function OpenMarkValue(p: Position): real { if p.open then p.shares * p.mark else 0.0 }

  function RealizedOf(s: SettlementRow): real { s.realized }

  /** SUM(amount) over open positions. */
  function OpenCost(st: State): real { SumOf(st.positions, OpenAmount) }

  function Unrealized(st: State): real { SumOf(st.positions, OpenUnrealized) }

  function MarkedValue(st: State): real { SumOf(st.positions, OpenMarkValue) }

  function Realized(st: State): real { SumOf(st.settlements, RealizedOf) }

  /** A UTC day in microseconds. */
  const DAY: int := 86_400_000_000

  function DayStart(now: int): int { now - now % DAY }

  function RealizedSince(st: State, since: int): real {
    SumOf(st.settlements, (s: SettlementRow) => if s.settledAt >= since then s.realized else 0.0)
  }

  // ---- Quotes ----

  datatype EntryQuote = EntryQuote(entryPrice: real, shares: real, cost: real, fees: real, total: real)

  function EstimateEntry(ask: real, shares: real, fee: real, slippage: real): Result<EntryQuote, PaperError> {
    if ask < 0.0 || ask > 1.0 || shares <= 0.0 || fee < 0.0 || slippage < 0.0 then Err(InvalidQuote)
    else
      var entryPrice := Min(1.0, ask + slippage);
      var cost := entryPrice * shares;
      var fees := cost * fee;
      Ok(EntryQuote(entryPrice, shares, cost, fees, cost + fees))
  }

  // ---- Executing a signal ----

  /** What the eligibility checks read; `otherReasons` are those of the market, freshness and evidence checks. */
  datatype Gate = Gate(paused: bool, contract: Option<Contract>, otherReasons: seq<string>)

  function EligibilityReasons(gate: Gate, now: int): seq<string> {
    (if gate.paused then ["execution_paused"] else [])
    + (if gate.contract.None? then ["contract_missing"]
       else if !gate.contract.value.accepted then ["contract_not_accepted"]
       else if gate.contract.value.expiry.None? || gate.contract.value.expiry.value <= now then ["contract_expired"]
       else [])
    + gate.otherReasons
  }

  datatype ExecuteRequest = ExecuteRequest(
    signalId: int, requested: Option<real>, minimum: Option<real>, actor: string, requestId: Option<string>,
    now: int, gate: Gate)

  /** A request with its defaults filled in: the arguments an idempotency key is bound to, and the key. */
  datatype BoundRequest = BoundRequest(signalId: int, requestId: string, actor: string, requested: real, required: real)

  datatype ExecutionResult =
    | RejectedEntry(signalId: int, reasons: seq<string>)
    | FilledEntry(signalId: int, orderId: nat, positionId: nat, price: real, size: real)

  /** Python's `value or default` on an optional number: zero counts as missing. */
  function OrDefault(value: Option<real>, default: real): real {
    if value.Some? && value.value != 0.0 then value.value else default
  }

  function RequestIdOr(requestId: Option<string>, default: string): string {
    if requestId.Some? && requestId.value != "" then requestId.value else default
  }

  function Bind(setup: Setup, req: ExecuteRequest): Result<BoundRequest, PaperError> {
    var actor := Strip(req.actor);
    if actor == "" then Err(ActorRequired)
    else if req.signalId !in setup.signals then Err(SignalNotFound)
    else
      var signal := setup.signals[req.signalId];
      var given := OrDefault(req.minimum, 0.0);
      if given == 0.0 && signal.requiredSize.None? then Err(MinimumMissing)
      else if given == 0.0 && signal.requiredSize.value <= 0.0 then Err(MinimumInvalid)
      else
        var required := if given != 0.0 then given else signal.requiredSize.value;
        Ok(BoundRequest(req.signalId, RequestIdOr(req.requestId, "paper-execute:" + signal.fingerprint), actor,
          OrDefault(req.requested, required), required))
  }

  predicate Matches(d: Decision, b: BoundRequest) {
    d.requestId == b.requestId && d.actor == b.actor && d.signalId == b.signalId
    && d.requested == b.requested && d.required == b.required
  }

  /** `_execution_result`: re-read the stored rows of a decision. */
  function ExecutionResultOf(st: State, d: Decision): Result<ExecutionResult, PaperError> {
    if !d.approved then Ok(RejectedEntry(d.signalId, d.reasons))
    else
      var order, position := OrderFor(st.orders, d.signalId), PositionFor(st.positions, d.signalId);
      if order.None? || position.None? then Err(Incomplete)
      else Ok(FilledEntry(d.signalId, order.value, position.value, st.orders[order.value].price, st.orders[order.value].size))
  }

  function Execute(setup: Setup, st: State, req: ExecuteRequest): Step<ExecutionResult> {
    var bound := Bind(setup, req);
    if bound.Err? then Step(st, Err(bound.error))
    else
      var b := bound.value;
      var existing := DecisionFor(st.decisions, b.signalId);
      if existing.Some? then
        var d := st.decisions[existing.value];
        Step(st, if Matches(d, b) then ExecutionResultOf(st, d) else Err(IdempotencyConflict(b.requestId)))
      else if DecisionByRequest(st.decisions, b.requestId).Some? then Step(st, Err(IdempotencyConflict(b.requestId)))
      else
        var reasons := EligibilityReasons(req.gate, req.now);
        if reasons != [] then
          var d := Decision(b.signalId, b.requestId, b.actor, b.requested, b.required, false, reasons, 0.0,
            Balance(setup, st), 0.0, 0.0, req.now);
          Step(st.(decisions := st.decisions + [d]), Ok(RejectedEntry(b.signalId, reasons)))
        else Trade(setup, st, b, req.now)
  }

  function SizingFor(setup: Setup, st: State, b: BoundRequest, now: int): SizingInput
    requires b.signalId in setup.signals
  {
    SizingInput(Balance(setup, st),
      Min(1.0, setup.signals[b.signalId].ask + setup.settings.slippage) * (1.0 + setup.settings.fee),
      b.requested, OpenCost(st), RealizedSince(st, DayStart(now)), b.required, Unrealized(st), 0.0, 0.0, 0.0, 0.0, false)
  }

  /** Size an eligible first request, record the decision, and fill it if approved. */
  function Trade(setup: Setup, st: State, b: BoundRequest, now: int): Step<ExecutionResult>
    requires b.signalId in setup.signals
  {
    var sizing := SizingFor(setup, st, b, now);
    var sized := SizeOrder(sizing, setup.settings.limits);
    if sized.Err? then Step(st, Err(RiskInputs(sized.error)))
    else
      var d := Decision(b.signalId, b.requestId, b.actor, b.requested, b.required, sized.value.approved,
        sized.value.reasons, sized.value.shares, sizing.balance, sizing.currentExposure, sizing.dailyPnl, now);
      var decided := st.(balance := Some(sizing.balance), decisions := st.decisions + [d]);
      if !sized.value.approved then Step(decided, Ok(RejectedEntry(b.signalId, sized.value.reasons)))
      else
        var ask := setup.signals[b.signalId].ask;
        var quote := EstimateEntry(ask, sized.value.shares, setup.settings.fee, setup.settings.slippage);
        if quote.Err? then Step(st, Err(quote.error))
        else if quote.value.total > sizing.balance then Step(st, Err(ExceedsBalance))
        // The order table demands a positive price.
        else if ask <= 0.0 then Step(st, Err(OrderConstraint))
        else
          Step(Filled(decided, b.signalId, ask, quote.value, sizing.balance, now),
            Ok(FilledEntry(b.signalId, |st.orders|, |st.positions|, ask, quote.value.shares)))
  }

  /** The order, fill and position rows of an approved entry, and the debited balance. */
  function Filled(st: State, signalId: int, ask: real, q: EntryQuote, balance: real, now: int): State {
    st.(balance := Some(balance - q.total),
        orders := st.orders + [Order(signalId, ask, q.shares, now)],
        fills := st.fills + [Fill(|st.orders|, q.entryPrice, q.shares, q.fees, now)],
        positions := st.positions +
          [Position(signalId, |st.orders|, now, q.entryPrice, q.total, q.shares, q.fees, true, q.entryPrice, -q.fees, 0.0)])
  }

  // ---- Marking a position ----

  function Mark(st: State, positionId: int, mark: real): Step<real> {
    if mark < 0.0 || mark > 1.0 then Step(st, Err(MarkOutOfRange))
    else if !(0 <= positionId < |st.positions|) || !st.positions[positionId].open then Step(st, Err(NotOpen))
    else
      var p := st.positions[positionId];
      var marked := p.(mark := mark, unrealized := Times(p.shares, mark) - p.amount);
      Step(st.(positions := st.positions[positionId := marked]), Ok(marked.unrealized))
  }

  // ---- Settling a position ----

  /** A settlement call, with the contract row the signal points to as stored at that moment. */
  datatype SettleRequest = SettleRequest(
    positionId: int, evidence: Evidence, actor: string, requestId: Option<string>, contract: Option<Contract>,
    settledAt: int)
  {
    predicate Valid() { contract.Some? ==> contract.value.Valid() }
  }

  datatype SettlementResult = SettlementResult(positionId: nat, settlementId: nat, outcome: Outcome, won: bool, payout: real, realized: real)

  function KeyOf(e: Evidence): EvidenceKey {
    EvidenceKey(e.contractId, Normalized(e.source), e.observedAt, e.retrievedAt, Lower(e.rawHash), e.claimed)
  }

  function SettleRequestId(req: SettleRequest): string {
    RequestIdOr(req.requestId, "paper-settle:" + Decimal(req.positionId))
  }

  /** The decimal digits of a row id. */
  function Decimal(n: int): string
    decreases if n < 0 then 1 - n else n
  {
    if n < 0 then "-" + Decimal(-n)
    else if n < 10 then [DIGITS[n]]
    else Decimal(n / 10) + [DIGITS[n % 10]]
  }

  const DIGITS: string := "0123456789"

  function SettlementResultOf(st: State, row: nat): SettlementResult
    requires row < |st.settlements|
  {
    var s := st.settlements[row];
    SettlementResult(s.positionId, row, s.outcome, s.won, s.payout, s.realized)
  }

  predicate SettlementMatches(s: SettlementRow, req: SettleRequest) {
    s.requestId == SettleRequestId(req) && s.actor == Strip(req.actor) && s.key == KeyOf(req.evidence)
  }

  function Settle(setup: Setup, st: State, req: SettleRequest): Step<SettlementResult>
    requires req.Valid()
  {
    var rid := SettleRequestId(req);
    if Strip(req.actor) == "" then Step(st, Err(ActorRequired))
    else if !(0 <= req.positionId < |st.positions|) then Step(st, Err(NotOpen))
    else
      var existing := SettlementFor(st.settlements, req.positionId);
      if existing.Some? then
        Step(st, if SettlementMatches(st.settlements[existing.value], req) then Ok(SettlementResultOf(st, existing.value))
                 else Err(IdempotencyConflict(rid)))
      else if SettlementByRequest(st.settlements, rid).Some? then Step(st, Err(IdempotencyConflict(rid)))
      else
        var p := st.positions[req.positionId];
        if !p.open then Step(st, Err(NotOpen))
        else if p.signalId !in setup.signals || setup.signals[p.signalId].contractId.None? then Step(st, Err(ContractMissing))
        else if req.contract.None? || !req.contract.value.accepted then Step(st, Err(ContractNotAccepted))
        else
          var signal := setup.signals[p.signalId];
          var outcome := Derive(req.contract.value, signal.title, req.evidence);
          if outcome.Err? then Step(st, Err(Underivable(outcome.error)))
          else
            var won := Won(req.contract.value, signal.title, outcome.value);
            var paid := Paid(setup, st, req, outcome.value, won, signal.probability);
            Step(paid, Ok(SettlementResultOf(paid, |st.settlements|)))
  }

  /** The settlement row, the closed position and the credited balance. */
  function Paid(setup: Setup, st: State, req: SettleRequest, outcome: Outcome, won: bool, probability: real): (r: State)
    requires 0 <= req.positionId < |st.positions|
    ensures |r.settlements| == |st.settlements| + 1
  {
    var p := st.positions[req.positionId];
    var payout := if won then p.shares else 0.0;
    var realized := payout - p.amount;
    var observed := if won then 1.0 else 0.0;
    var row := SettlementRow(req.positionId, SettleRequestId(req), Strip(req.actor), KeyOf(req.evidence), outcome,
      req.settledAt, won, payout, realized, (probability - observed) * (probability - observed));
    st.(balance := Some(Balance(setup, st) + payout),
        settlements := st.settlements + [row],
        positions := st.positions[req.positionId := p.(open := false, mark := observed, unrealized := 0.0, realized := realized)])
  }
}
