/** Whole runs of the paper ledger: any sequence of executions, marks, settlements and scheduled settlement passes. */
module PaperRuns {
  import Text
  import opened Outcomes
  import opened Products
  import opened Sums
  import opened Risk
  import Rounding
  import opened Settlement
  import opened PaperLedger
  import opened PaperInvariant

  // ---- The scheduled settlement pass (`SettlementWorker.run_due`) ----

  /** What one pass reads: the contract rows, the evidence each fetch returns (missing when it raises), the clocks. */
  datatype Pass = Pass(contracts: map<int, Contract>, fetched: map<nat, Evidence>, now: int, settledAt: int) {
    predicate Valid() { forall c :: c in contracts ==> contracts[c].Valid() }
  }

  datatype PassRow = SettledRow(result: SettlementResult) | ErrorRow(positionId: nat)

  function ContractOf(setup: Setup, pass: Pass, p: Position): Option<Contract> {
    if p.signalId !in setup.signals then None
    else
      var id := setup.signals[p.signalId].contractId;
      if id.None? || id.value !in pass.contracts then None else Some(pass.contracts[id.value])
  }

  lemma ContractOfValid(setup: Setup, pass: Pass, p: Position)
    requires pass.Valid()
    ensures ContractOf(setup, pass, p).Some? ==> ContractOf(setup, pass, p).value.Valid()
  {
    if ContractOf(setup, pass, p).Some? {
      var id := setup.signals[p.signalId].contractId.value;
      assert pass.contracts[id].Valid();
    }
  }

  predicate IsDue(setup: Setup, pass: Pass, p: Position) {
    var c := ContractOf(setup, pass, p);
    p.open && c.Some? && c.value.expiry.Some? && c.value.expiry.value <= pass.now
  }

  /** The ids of due positions among the first n, ascending. */
  function DueIds(setup: Setup, st: State, pass: Pass, n: nat): (ids: seq<nat>)
    requires n <= |st.positions|
    ensures forall i :: i in ids <==> 0 <= i < n && IsDue(setup, pass, st.positions[i])
    ensures forall i, j :: 0 <= i < j < |ids| ==> ids[i] < ids[j]
  {
    if n == 0 then []
    else
      var earlier := DueIds(setup, st, pass, n - 1);
      assert forall j :: 0 <= j < |earlier| ==> earlier[j] in earlier;
      if IsDue(setup, pass, st.positions[n - 1]) then earlier + [n - 1] else earlier
  }

  function ScheduledRequest(setup: Setup, st: State, pass: Pass, id: nat): (req: SettleRequest)
    requires id < |st.positions| && id in pass.fetched && pass.Valid()
    ensures req.Valid() && req.positionId == id
  {
    ContractOfValid(setup, pass, st.positions[id]);
    SettleRequest(id, pass.fetched[id], "system:settlement_scheduler", Some("scheduled-settlement:" + Decimal(id)),
      ContractOf(setup, pass, st.positions[id]), pass.settledAt)
  }

  /** One position of a pass: a failed fetch or a failed settlement becomes an error row. */
  function SettleDue(setup: Setup, st: State, pass: Pass, id: nat): (State, PassRow)
    requires pass.Valid()
  {
    if id !in pass.fetched || id >= |st.positions| then (st, ErrorRow(id))
    else
      var step := Settle(setup, st, ScheduledRequest(setup, st, pass, id));
      (step.state, if step.result.Ok? then SettledRow(step.result.value) else ErrorRow(id))
  }

  function SettleAll(setup: Setup, st: State, pass: Pass, ids: seq<nat>): (r: (State, seq<PassRow>))
    requires pass.Valid()
    ensures |r.1| == |ids|
    decreases |ids|
  {
    if ids == [] then (st, [])
    else
      var first := SettleDue(setup, st, pass, ids[0]);
      var rest := SettleAll(setup, first.0, pass, ids[1..]);
      (rest.0, [first.1] + rest.1)
  }

  function RunDue(setup: Setup, st: State, pass: Pass): (State, seq<PassRow>)
    requires pass.Valid()
  {
    SettleAll(setup, st, pass, DueIds(setup, st, pass, |st.positions|))
  }

  // ---- Runs ----

  datatype Op =
    | ExecuteOp(execute: ExecuteRequest)
    | MarkOp(positionId: int, mark: real)
    | SettleOp(settle: SettleRequest)
    | RunDueOp(pass: Pass)
  {
    predicate Valid() {
      (SettleOp? ==> settle.Valid()) && (RunDueOp? ==> pass.Valid())
    }
  }

  predicate AllValid(ops: seq<Op>) {
    forall op :: op in ops ==> op.Valid()
  }

  function Apply(setup: Setup, st: State, op: Op): State
    requires op.Valid()
  {
    match op
    case ExecuteOp(req) => Execute(setup, st, req).state
    case MarkOp(id, mark) => Mark(st, id, mark).state
    case SettleOp(req) => Settle(setup, st, req).state
    case RunDueOp(pass) => RunDue(setup, st, pass).0
  }

  function Run(setup: Setup, st: State, ops: seq<Op>): State
    requires AllValid(ops)
    decreases |ops|
  {
    if ops == [] then st else Run(setup, Apply(setup, st, ops[0]), ops[1..])
  }

  lemma {:induction false} SettleAllKeeps(setup: Setup, st: State, pass: Pass, ids: seq<nat>)
    requires setup.Valid() && Inv(setup, st) && pass.Valid()
    ensures Inv(setup, SettleAll(setup, st, pass, ids).0)
    decreases |ids|
  {
    hide Inv, Settle;
    if ids != [] {
      if ids[0] in pass.fetched && ids[0] < |st.positions| {
        SettleKeeps(setup, st, ScheduledRequest(setup, st, pass, ids[0]));
      }
      SettleAllKeeps(setup, SettleDue(setup, st, pass, ids[0]).0, pass, ids[1..]);
    }
  }

  /** The invariant holds after every run. */
  lemma {:induction false} RunKeeps(setup: Setup, st: State, ops: seq<Op>)
    requires setup.Valid() && Inv(setup, st) && AllValid(ops)
    ensures Inv(setup, Run(setup, st, ops))
    decreases |ops|
  {
    hide Inv, Execute, Mark, Settle;
    if ops != [] {
      match ops[0] {
        case ExecuteOp(req) => ExecuteKeeps(setup, st, req);
        case MarkOp(id, mark) => MarkKeeps(setup, st, id, mark);
        case SettleOp(req) =>
          assert ops[0].Valid();
          SettleKeeps(setup, st, req);
        case RunDueOp(pass) =>
          assert ops[0].Valid();
          SettleAllKeeps(setup, st, pass, DueIds(setup, st, pass, |st.positions|));
      }
      RunKeeps(setup, Apply(setup, st, ops[0]), ops[1..]);
    }
  }

  /** Money is conserved over every run, at cost and marked to market. */
  lemma RunConserves(setup: Setup, ops: seq<Op>)
    requires setup.Valid() && AllValid(ops)
    ensures var st := Run(setup, Empty(), ops); var start := setup.settings.startingBalance;
      && Balance(setup, st) == start - OpenCost(st) + Realized(st)
      && Balance(setup, st) + MarkedValue(st) == start + Realized(st) + Unrealized(st)
  {
    hide Run;
    EmptyHolds(setup);
    RunKeeps(setup, Empty(), ops);
    MarkedIsCostPlusUnrealized(setup, Run(setup, Empty(), ops));
  }

  lemma MarkedIsCostPlusUnrealized(setup: Setup, st: State)
    requires Entries(setup, st)
    ensures MarkedValue(st) == OpenCost(st) + Unrealized(st)
  {
    forall p | p in st.positions ensures OpenMarkValue(p) == 1.0 * OpenAmount(p) + 1.0 * OpenUnrealized(p) {
      var i :| 0 <= i < |st.positions| && st.positions[i] == p;
      assert EntryOk(setup, st.orders[i], st.fills[i], st.positions[i], i);
    }
    SumLinear(st.positions, OpenMarkValue, 1.0, OpenAmount, 1.0, OpenUnrealized);
  }

  /**
   * Over every run: cash stays positive, open cost stays within the exposure fraction of cost-basis equity, and so
   * even the total loss of every open position leaves at least the remaining fraction of it.
   */
  lemma RunSolvent(setup: Setup, ops: seq<Op>)
    requires setup.Valid() && AllValid(ops)
    ensures var st := Run(setup, Empty(), ops); var f := setup.settings.limits.exposure;
      var equity := Balance(setup, st) + OpenCost(st);
      && Balance(setup, st) > 0.0 && 0.0 <= OpenCost(st) <= f * equity
      && Balance(setup, st) >= (1.0 - f) * equity
  {
    hide Run;
    EmptyHolds(setup);
    RunKeeps(setup, Empty(), ops);
    var st := Run(setup, Empty(), ops);
    Remaining(setup.settings.limits.exposure, Balance(setup, st) + OpenCost(st));
  }

  lemma Remaining(f: real, e: real)
    ensures (1.0 - f) * e == e - f * e && Times(f, e) == f * e
  {
  }

  /** Over every run each signal is decided once and bought at most once, and each position is paid at most once. */
  lemma RunAtMostOnce(setup: Setup, ops: seq<Op>)
    requires setup.Valid() && AllValid(ops)
    ensures var st := Run(setup, Empty(), ops);
      && Entries(setup, st) && AtMostOnce(st) && Decided(st) && Settled(st)
  {
    hide Run, Entries, AtMostOnce, Decided, Settled;
    EmptyHolds(setup);
    RunKeeps(setup, Empty(), ops);
  }

  // ---- Rows are never rewritten ----

  /** Fields of a position no operation changes. */
  ghost predicate SamePurchase(a: Position, b: Position) {
    && a.signalId == b.signalId && a.orderId == b.orderId && a.enteredAt == b.enteredAt && a.entryPrice == b.entryPrice
    && a.amount == b.amount && a.shares == b.shares && a.fees == b.fees
    && (!a.open ==> b == a)
  }

  /** Everything in `a` is still in `b`; closed positions and all other rows are untouched. */
  ghost predicate Extends(a: State, b: State) {
    && a.decisions <= b.decisions && a.orders <= b.orders && a.fills <= b.fills && a.settlements <= b.settlements
    && |a.positions| <= |b.positions|
    && forall i :: 0 <= i < |a.positions| ==> SamePurchase(a.positions[i], b.positions[i])
  }

  lemma ExtendsTransitive(a: State, b: State, c: State)
    requires Extends(a, b) && Extends(b, c)
    ensures Extends(a, c)
  {
    forall i | 0 <= i < |a.positions| ensures SamePurchase(a.positions[i], c.positions[i]) {
      assert SamePurchase(a.positions[i], b.positions[i]) && SamePurchase(b.positions[i], c.positions[i]);
    }
  }

  lemma ExecuteExtends(setup: Setup, st: State, req: ExecuteRequest)
    ensures Extends(st, Execute(setup, st, req).state)
  {
    hide Bind, DecisionFor, DecisionByRequest, ExecutionResultOf, EligibilityReasons, SizeOrder, EstimateEntry, SizingFor;
  }

  lemma SettleExtends(setup: Setup, st: State, req: SettleRequest)
    requires req.Valid()
    ensures Extends(st, Settle(setup, st, req).state)
  {
    hide Derive, Won, SettlementFor, SettlementByRequest, SettlementMatches, SettleRequestId, KeyOf;
  }

  lemma {:induction false} SettleAllExtends(setup: Setup, st: State, pass: Pass, ids: seq<nat>)
    requires pass.Valid()
    ensures Extends(st, SettleAll(setup, st, pass, ids).0)
    decreases |ids|
  {
    hide Settle;
    if ids != [] {
      var next := SettleDue(setup, st, pass, ids[0]).0;
      if ids[0] in pass.fetched && ids[0] < |st.positions| {
        SettleExtends(setup, st, ScheduledRequest(setup, st, pass, ids[0]));
      }
      SettleAllExtends(setup, next, pass, ids[1..]);
      ExtendsTransitive(st, next, SettleAll(setup, next, pass, ids[1..]).0);
    }
  }

  lemma {:induction false} RunExtends(setup: Setup, st: State, ops: seq<Op>)
    requires AllValid(ops)
    ensures Extends(st, Run(setup, st, ops))
    decreases |ops|
  {
    hide Execute, Settle;
    if ops != [] {
      match ops[0] {
        case ExecuteOp(req) => ExecuteExtends(setup, st, req);
        case MarkOp(id, mark) =>
        case SettleOp(req) =>
          assert ops[0].Valid();
          SettleExtends(setup, st, req);
        case RunDueOp(pass) =>
          assert ops[0].Valid();
          SettleAllExtends(setup, st, pass, DueIds(setup, st, pass, |st.positions|));
      }
      RunExtends(setup, Apply(setup, st, ops[0]), ops[1..]);
      ExtendsTransitive(st, Apply(setup, st, ops[0]), Run(setup, Apply(setup, st, ops[0]), ops[1..]));
    }
  }

  // ---- Replays ----

  /** A decision's stored result does not change as the ledger grows. */
  lemma ResultStable(a: State, b: State, d: Decision)
    requires Extends(a, b) && ExecutionResultOf(a, d).Ok?
    ensures ExecutionResultOf(b, d) == ExecutionResultOf(a, d)
  {
    hide OrderFor, PositionFor;
    if d.approved {
      var o, p := OrderFor(a.orders, d.signalId).value, PositionFor(a.positions, d.signalId).value;
      assert b.orders[o] == a.orders[o] && SamePurchase(a.positions[p], b.positions[p]);
      forall j | 0 <= j < o ensures b.orders[j].signalId != d.signalId {
        assert b.orders[j] == a.orders[j];
      }
      forall j | 0 <= j < p ensures b.positions[j].signalId != d.signalId {
        assert SamePurchase(a.positions[j], b.positions[j]);
      }
    }
  }

  /** A successful execution leaves behind the decision that any replay will find. */
  lemma ExecutedIsRecorded(setup: Setup, st: State, req: ExecuteRequest)
    requires Inv(setup, st) && Execute(setup, st, req).result.Ok?
    ensures var after := Execute(setup, st, req).state; var b := Bind(setup, req);
      && b.Ok? && DecisionFor(after.decisions, b.value.signalId).Some?
      && var d := after.decisions[DecisionFor(after.decisions, b.value.signalId).value];
         && Matches(d, b.value)
         && ExecutionResultOf(after, d) == Execute(setup, st, req).result
  {
    hide Bind, DecisionByRequest, EligibilityReasons, SizeOrder, EstimateEntry, SizingFor, DecisionFor, OrderFor, PositionFor,
      Conserved, Solvent, Settled;
    var after, b := Execute(setup, st, req).state, Bind(setup, req).value;
    if DecisionFor(st.decisions, b.signalId).None? {
      UndecidedHasNoPosition(st, b.signalId);
      var k := DecisionFor(after.decisions, b.signalId);
      assert after.decisions[|st.decisions|].signalId == b.signalId;
      assert forall i :: 0 <= i < |st.decisions| ==> after.decisions[i] == st.decisions[i];
      assert k == Some(|st.decisions|);
      if after.decisions[k.value].approved {
        FilledLookups(setup, st, after, b.signalId);
      }
    }
  }

  lemma FilledLookups(setup: Setup, st: State, after: State, signalId: int)
    requires Entries(setup, st) && PositionFor(st.positions, signalId).None?
    requires |after.orders| == |st.orders| + 1 && st.orders <= after.orders && after.orders[|st.orders|].signalId == signalId
    requires |after.positions| == |st.positions| + 1 && st.positions <= after.positions
    requires after.positions[|st.positions|].signalId == signalId
    ensures OrderFor(after.orders, signalId) == Some(|st.orders|)
    ensures PositionFor(after.positions, signalId) == Some(|st.positions|)
  {
    hide OrderFor, PositionFor;
    forall i | 0 <= i < |st.positions|
      ensures after.orders[i].signalId != signalId && after.positions[i].signalId != signalId
    {
      assert EntryOk(setup, st.orders[i], st.fills[i], st.positions[i], i);
      assert after.orders[i] == st.orders[i] && after.positions[i] == st.positions[i];
    }
  }

  /**
   * A replay of a successful execution with the same bound arguments returns the identical result and changes
   * nothing, whatever was marked, settled or executed in between, and whatever the gate says by then.
   */
  lemma ExecuteReplays(setup: Setup, before: seq<Op>, req: ExecuteRequest, between: seq<Op>, again: ExecuteRequest)
    requires setup.Valid() && AllValid(before) && AllValid(between)
    requires Execute(setup, Run(setup, Empty(), before), req).result.Ok? && Bind(setup, again) == Bind(setup, req)
    ensures var first := Execute(setup, Run(setup, Empty(), before), req);
      var later := Run(setup, first.state, between);
      Execute(setup, later, again) == Step(later, first.result)
  {
    hide Run, Inv, Bind, ExecutionResultOf, Trade, Matches, EligibilityReasons, DecisionFor, DecisionByRequest;
    EmptyHolds(setup);
    RunKeeps(setup, Empty(), before);
    var st := Run(setup, Empty(), before);
    var first := Execute(setup, st, req);
    ExecutedIsRecorded(setup, st, req);
    RunExtends(setup, first.state, between);
    var later, b := Run(setup, first.state, between), Bind(setup, req).value;
    var k := DecisionFor(first.state.decisions, b.signalId).value;
    SameDecisionFound(first.state, later, b.signalId);
    ResultStable(first.state, later, first.state.decisions[k]);
  }

  lemma SameDecisionFound(a: State, b: State, signalId: int)
    requires Extends(a, b) && DecisionFor(a.decisions, signalId).Some?
    ensures DecisionFor(b.decisions, signalId) == DecisionFor(a.decisions, signalId)
    ensures var k := DecisionFor(a.decisions, signalId).value; b.decisions[k] == a.decisions[k]
  {
    hide DecisionFor;
    var k, m := DecisionFor(a.decisions, signalId).value, DecisionFor(b.decisions, signalId);
    assert b.decisions[k] == a.decisions[k];
    assert m.Some? && m.value <= k;
    assert b.decisions[m.value] == a.decisions[m.value];
  }

  /** The same for settlements: a position is paid by the first successful call and every replay reports that payment. */
  lemma SettleReplays(setup: Setup, before: seq<Op>, req: SettleRequest, between: seq<Op>, again: SettleRequest)
    requires setup.Valid() && AllValid(before) && AllValid(between) && req.Valid() && again.Valid()
    requires Settle(setup, Run(setup, Empty(), before), req).result.Ok?
    requires again.positionId == req.positionId && SettleRequestId(again) == SettleRequestId(req)
    requires KeyOf(again.evidence) == KeyOf(req.evidence) && again.actor == req.actor
    ensures var first := Settle(setup, Run(setup, Empty(), before), req);
      var later := Run(setup, first.state, between);
      Settle(setup, later, again) == Step(later, first.result)
  {
    hide Run, SettleRequestId, KeyOf, Derive, Won, SettlementFor, SettlementByRequest;
    var st := Run(setup, Empty(), before);
    var first := Settle(setup, st, req);
    RunExtends(setup, first.state, between);
    var later := Run(setup, first.state, between);
    var k := SettlementFor(first.state.settlements, req.positionId);
    if SettlementFor(st.settlements, req.positionId).None? {
      assert forall i :: 0 <= i < |st.settlements| ==> first.state.settlements[i] == st.settlements[i];
      assert first.state.settlements[|st.settlements|].positionId == req.positionId;
      assert k == Some(|st.settlements|);
    }
    assert later.settlements[k.value] == first.state.settlements[k.value];
    var m := SettlementFor(later.settlements, req.positionId);
    assert m.Some? && m.value <= k.value;
    assert later.settlements[m.value] == first.state.settlements[m.value];
    assert m == k;
  }

  /** A call that raises changes nothing; a rejected execution adds its decision and moves no money. */
  lemma FailuresMoveNoMoney(setup: Setup, st: State, req: ExecuteRequest, settle: SettleRequest, id: int, mark: real)
    requires settle.Valid()
    ensures Execute(setup, st, req).result.Err? ==> Execute(setup, st, req).state == st
    ensures Settle(setup, st, settle).result.Err? ==> Settle(setup, st, settle).state == st
    ensures Mark(st, id, mark).result.Err? ==> Mark(st, id, mark).state == st
    ensures var e := Execute(setup, st, req);
      e.result.Ok? && e.result.value.RejectedEntry? ==>
        && Balance(setup, e.state) == Balance(setup, st)
        && e.state == st.(balance := e.state.balance, decisions := e.state.decisions)
  {
    hide Bind, DecisionFor, DecisionByRequest, EligibilityReasons, SizeOrder, EstimateEntry, Derive, Won,
      SettlementFor, SettlementByRequest, SettlementMatches, SettleRequestId, KeyOf;
  }

  // ---- Entries happen only while unpaused ----

  /**
   * The operation is an execution of the signal that was allowed: not paused, on an accepted contract still to
   * expire, with no other reason against it.
   */
  predicate AllowedEntry(op: Op, signalId: int) {
    && op.ExecuteOp? && op.execute.signalId == signalId && !op.execute.gate.paused && op.execute.gate.otherReasons == []
    && var c := op.execute.gate.contract;
       c.Some? && c.value.accepted && c.value.expiry.Some? && c.value.expiry.value > op.execute.now
  }

  lemma ExecuteOpensOnlyIfAllowed(setup: Setup, st: State, req: ExecuteRequest, i: nat)
    requires |st.positions| <= i < |Execute(setup, st, req).state.positions|
    ensures AllowedEntry(ExecuteOp(req), Execute(setup, st, req).state.positions[i].signalId)
  {
    hide DecisionFor, DecisionByRequest, SizeOrder, EstimateEntry, SizingFor, ExecutionResultOf;
    assert EligibilityReasons(req.gate, req.now) == [];
  }

  /** Every position of a run was opened by an operation of the run whose gate was unpaused, whose contract was live and which no other reason stood against. */
  lemma {:induction false} PositionsWereAllowed(setup: Setup, st: State, ops: seq<Op>, i: nat) returns (k: nat)
    requires AllValid(ops) && |st.positions| <= i < |Run(setup, st, ops).positions|
    ensures k < |ops| && AllowedEntry(ops[k], Run(setup, st, ops).positions[i].signalId)
    decreases |ops|
  {
    hide Execute, Settle, AllowedEntry;
    var next := Apply(setup, st, ops[0]);
    RunExtends(setup, next, ops[1..]);
    if i < |next.positions| {
      assert SamePurchase(next.positions[i], Run(setup, next, ops[1..]).positions[i]);
      assert ops[0].Valid();
      match ops[0] {
        case ExecuteOp(req) => ExecuteOpensOnlyIfAllowed(setup, st, req, i);
        case MarkOp(_, _) =>
        case SettleOp(req) => SettleAddsNoPosition(setup, st, req);
        case RunDueOp(pass) => SettleAllAddsNoPosition(setup, st, pass, DueIds(setup, st, pass, |st.positions|));
      }
      k := 0;
    } else {
      var rest := PositionsWereAllowed(setup, next, ops[1..], i);
      k := rest + 1;
    }
  }

  lemma SettleAddsNoPosition(setup: Setup, st: State, req: SettleRequest)
    requires req.Valid()
    ensures |Settle(setup, st, req).state.positions| == |st.positions|
  {
  }

  lemma {:induction false} SettleAllAddsNoPosition(setup: Setup, st: State, pass: Pass, ids: seq<nat>)
    requires pass.Valid()
    ensures |SettleAll(setup, st, pass, ids).0.positions| == |st.positions|
    decreases |ids|
  {
    hide Settle;
    if ids != [] {
      if ids[0] in pass.fetched && ids[0] < |st.positions| {
        SettleAddsNoPosition(setup, st, ScheduledRequest(setup, st, pass, ids[0]));
      }
      SettleAllAddsNoPosition(setup, SettleDue(setup, st, pass, ids[0]).0, pass, ids[1..]);
    }
  }

  // ---- How large an entry is ----

  /** Buying `shares` now would be within the request and both caps, at the price the quote will charge. */
  ghost predicate WithinCaps(setup: Setup, st: State, b: PaperLedger.BoundRequest, shares: real)
    requires b.signalId in setup.signals
  {
    var q := EstimateEntry(setup.signals[b.signalId].ask, shares, setup.settings.fee, setup.settings.slippage);
    && q.Ok? && shares <= b.requested
    && q.value.total <= Times(Balance(setup, st), setup.settings.limits.trade)
    && OpenCost(st) + q.value.total <= Times(Balance(setup, st), setup.settings.limits.exposure)
  }

  /**
   * An entry is opened only above the daily loss cap, and then buys the most shares, in multiples of the quantum,
   * whose quoted total fits the request and both caps.
   */
  lemma OpenedEntryIsLargest(setup: Setup, st: State, req: ExecuteRequest)
    requires setup.Valid() && Inv(setup, st)
    requires |Execute(setup, st, req).state.positions| > |st.positions|
    ensures Bind(setup, req).Ok? && Bind(setup, req).value.signalId in setup.signals
    ensures var b := Bind(setup, req).value; var p := Execute(setup, st, req).state.positions[|st.positions|];
      && RealizedSince(st, DayStart(req.now)) + Unrealized(st) > -Times(Balance(setup, st), setup.settings.limits.dailyLoss)
      && Rounding.IsMultiple8(p.shares) && WithinCaps(setup, st, b, p.shares)
      && (forall s :: Rounding.IsMultiple8(s) && s > 0.0 && WithinCaps(setup, st, b, s) ==> s <= p.shares)
  {
    hide Inv, SizeOrder, Affordable, EstimateEntry, RealizedSince, OpenCost, Unrealized, Times, Execute, Bind, WithinCaps,
      SizingFor;
    OpenedIsSized(setup, st, req);
    InvParts(setup, st);
    var b := Bind(setup, req).value;
    var o, limits := SizingFor(setup, st, b, req.now), setup.settings.limits;
    var d := SizeOrder(o, limits).value;
    SizedInputsValid(o, limits);
    ApprovedIsLargest(o, limits);
    ApprovedIff(o, limits);
    SizingLossInputs(setup, st, b, req.now);
    QuotedIsAffordable(setup, st, b, req.now, d.shares);
    forall s | Rounding.IsMultiple8(s) && s > 0.0 && WithinCaps(setup, st, b, s) ensures s <= d.shares {
      CapsNeedQuote(setup, st, b, s);
      QuotedIsAffordable(setup, st, b, req.now, s);
    }
  }

  lemma OpenedIsSized(setup: Setup, st: State, req: ExecuteRequest)
    requires |Execute(setup, st, req).state.positions| > |st.positions|
    ensures Bind(setup, req).Ok? && Bind(setup, req).value.signalId in setup.signals
    ensures var b := Bind(setup, req).value;
      var sized := SizeOrder(SizingFor(setup, st, b, req.now), setup.settings.limits);
      && sized.Ok? && sized.value.approved
      && EstimateEntry(setup.signals[b.signalId].ask, sized.value.shares, setup.settings.fee, setup.settings.slippage).Ok?
      && Execute(setup, st, req).state.positions[|st.positions|].shares == sized.value.shares
  {
    hide DecisionFor, DecisionByRequest, EligibilityReasons, ExecutionResultOf, SizeOrder, SizingFor;
  }

  lemma SizingLossInputs(setup: Setup, st: State, b: PaperLedger.BoundRequest, now: int)
    requires b.signalId in setup.signals
    ensures var o := SizingFor(setup, st, b, now);
      && o.dailyPnl == RealizedSince(st, DayStart(now)) && o.unrealizedPnl == Unrealized(st)
      && o.balance == Balance(setup, st) && o.fees == 0.0 == o.slippage
  {
  }

  lemma CapsNeedQuote(setup: Setup, st: State, b: PaperLedger.BoundRequest, shares: real)
    requires b.signalId in setup.signals && WithinCaps(setup, st, b, shares)
    ensures EstimateEntry(setup.signals[b.signalId].ask, shares, setup.settings.fee, setup.settings.slippage).Ok?
  {
  }

  lemma SizedInputsValid(o: SizingInput, limits: RiskLimits)
    requires SizeOrder(o, limits).Ok?
    ensures InputError(o).None?
  {
  }

  /** The sizing's affordability and the quote's caps are the same test. */
  lemma QuotedIsAffordable(setup: Setup, st: State, b: PaperLedger.BoundRequest, now: int, shares: real)
    requires setup.Valid() && b.signalId in setup.signals
    requires EstimateEntry(setup.signals[b.signalId].ask, shares, setup.settings.fee, setup.settings.slippage).Ok?
    requires Solvent(setup, st)
    ensures WithinCaps(setup, st, b, shares) <==> Affordable(SizingFor(setup, st, b, now), setup.settings.limits, shares)
  {
    QuoteEqualsNotional(setup.signals[b.signalId].ask, shares, setup.settings.fee, setup.settings.slippage);
    var o := SizingFor(setup, st, b, now);
    var price := o.price;
    var q := EstimateEntry(setup.signals[b.signalId].ask, shares, setup.settings.fee, setup.settings.slippage).value;
    assert q.total == Times(shares, price);
  }

  /** An entry does open: one share at 0.50 against a balance of 100. */
  lemma EntryExample() returns (setup: Setup, req: ExecuteRequest)
    ensures setup.Valid() && Inv(setup, Empty())
    ensures |Execute(setup, Empty(), req).state.positions| == 1 && !req.gate.paused
  {
    var contract := Contract(1, true, Some("s"), Some(10), Unsupported);
    setup := Setup(Settings(100.0, 0.0, 0.0, RiskLimits(0.05, 0.25, 0.1)),
      map[1 := Signal("f", 0.5, Some(1.0), "yes", 0.6, Some(1))]);
    req := ExecuteRequest(1, None, None, "a", Some("r"), 0, Gate(false, Some(contract), []));
    EmptyHolds(setup);
    assert Bind(setup, req) == Ok(PaperLedger.BoundRequest(1, "r", "a", 1.0, 1.0)) by {
      assert Text.Strip("a") == "a";
    }
    var b := PaperLedger.BoundRequest(1, "r", "a", 1.0, 1.0);
    assert EligibilityReasons(req.gate, 0) == [];
    OneShareFits(setup, b);
  }

  lemma OneShareFits(setup: Setup, b: PaperLedger.BoundRequest)
    requires setup.settings == Settings(100.0, 0.0, 0.0, RiskLimits(0.05, 0.25, 0.1))
    requires b.signalId in setup.signals && setup.signals[b.signalId].ask == 0.5 && b.requested == b.required == 1.0
    ensures |Trade(setup, Empty(), b, 0).state.positions| == 1
  {
    var o := SizingFor(setup, Empty(), b, 0);
    assert o.balance == 100.0 && o.price == 0.5 && o.currentExposure == 0.0 && o.dailyPnl == 0.0 == o.unrealizedPnl;
    assert Rounding.Down8(1.0) == 1.0;
    assert SizeOrder(o, setup.settings.limits) == Ok(RiskDecision(true, 1.0, 0.5, [])) by {
      assert 100.0 * 0.05 / 0.5 == 10.0;
    }
  }
}
