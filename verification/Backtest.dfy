/** The chronological paper backtest (app/services/backtest.py). */
module Backtest {
  import opened Outcomes
  import opened Sums

  datatype Row = Row(
    timestamp: int, featureTimestamp: Option<int>, probability: real, outcome: real,
    price: real, fee: real, slippage: real, buffer: real)

  datatype BacktestError = TooFewRecords | DuplicateTimestamps | TemporalLeakage

  // ---- The split ----

  function Insert(r: Row, rows: seq<Row>): seq<Row> {
    if rows == [] || r.timestamp <= rows[0].timestamp then [r] + rows else [rows[0]] + Insert(r, rows[1..])
  }

  /** `normalized.sort(key=timestamp)`. */
  function SortByTime(rows: seq<Row>): seq<Row> {
    if rows == [] then [] else Insert(rows[0], SortByTime(rows[1..]))
  }

  function Leaks(r: Row): bool {
    r.featureTimestamp.Some? && r.featureTimestamp.value > r.timestamp
  }

  function Larger(a: int, b: int): int { if a >= b then a else b }

  /** How many of n rows train: three fifths, at least two, and never all. */
  function SplitPoint(n: nat): int {
    var split := Larger(2, 3 * n / 5);
    if split >= n then n - 1 else split
  }

  predicate DistinctTimes(rows: seq<Row>) {
    forall i, j :: 0 <= i < j < |rows| ==> rows[i].timestamp != rows[j].timestamp
  }

  datatype Split = Split(train: seq<Row>, evaluation: seq<Row>)

  function SplitRows(records: seq<Row>): (r: Result<Split, BacktestError>) {
    var rows := SortByTime(records);
    if |records| < 4 then Err(TooFewRecords)
    else if !DistinctTimes(rows) then Err(DuplicateTimestamps)
    else if exists i :: 0 <= i < |rows| && Leaks(rows[i]) then Err(TemporalLeakage)
    else
      SortKeeps(records);
      Ok(Split(rows[..SplitPoint(|rows|)], rows[SplitPoint(|rows|)..]))
  }

  predicate Ascending(rows: seq<Row>) {
    forall i, j :: 0 <= i < j < |rows| ==> rows[i].timestamp <= rows[j].timestamp
  }

  lemma {:induction false} InsertKeeps(r: Row, rows: seq<Row>)
    ensures multiset(Insert(r, rows)) == multiset(rows) + multiset{r}
    ensures |Insert(r, rows)| == |rows| + 1
    ensures forall x :: x in Insert(r, rows) <==> x == r || x in rows
  {
    if rows != [] && rows[0].timestamp < r.timestamp {
      InsertKeeps(r, rows[1..]);
      assert rows == [rows[0]] + rows[1..];
    }
  }

  lemma {:induction false} InsertAscending(r: Row, rows: seq<Row>)
    requires Ascending(rows)
    ensures Ascending(Insert(r, rows))
  {
    if rows != [] && rows[0].timestamp < r.timestamp {
      InsertAscending(r, rows[1..]);
      InsertKeeps(r, rows[1..]);
      var t := Insert(r, rows[1..]);
      forall k | 0 <= k < |t| ensures rows[0].timestamp <= t[k].timestamp {
        assert t[k] in t;
      }
    }
  }

  lemma NothingAscending()
    ensures Ascending([])
  {
  }

  lemma {:induction false} SortKeeps(rows: seq<Row>)
    ensures multiset(SortByTime(rows)) == multiset(rows) && |SortByTime(rows)| == |rows|
    ensures Ascending(SortByTime(rows))
  {
    hide Insert, Ascending;
    if rows == [] {
      NothingAscending();
    } else {
      SortKeeps(rows[1..]);
      InsertKeeps(rows[0], SortByTime(rows[1..]));
      InsertAscending(rows[0], SortByTime(rows[1..]));
      assert rows == [rows[0]] + rows[1..];
    }
  }

  /**
   * The split neither loses nor repeats a record, both sides are non-empty, and nothing a training row holds is
   * as late as any evaluation row.
   */
  lemma SplitIsTemporal(records: seq<Row>)
    requires SplitRows(records).Ok?
    ensures var s := SplitRows(records).value;
      && multiset(s.train + s.evaluation) == multiset(records)
      && |s.train| >= 2 && s.evaluation != []
      && (forall t, e :: t in s.train && e in s.evaluation ==>
        t.timestamp < e.timestamp && (t.featureTimestamp.Some? ==> t.featureTimestamp.value < e.timestamp))
  {
    hide SortByTime, DistinctTimes, Ascending, Leaks;
    var rows, s := SortByTime(records), SplitRows(records).value;
    SortKeeps(records);
    assert s.train + s.evaluation == rows;
    forall t, e | t in s.train && e in s.evaluation
      ensures t.timestamp < e.timestamp && (t.featureTimestamp.Some? ==> t.featureTimestamp.value < e.timestamp)
    {
      TrainedBefore(rows, |s.train|, t, e);
    }
  }

  /** In distinct ascending rows without leaks, nothing before a cut is as late as anything after it. */
  lemma TrainedBefore(rows: seq<Row>, n: nat, t: Row, e: Row)
    requires Ascending(rows) && DistinctTimes(rows) && n <= |rows|
    requires forall i :: 0 <= i < |rows| ==> !Leaks(rows[i])
    requires t in rows[..n] && e in rows[n..]
    ensures t.timestamp < e.timestamp && (t.featureTimestamp.Some? ==> t.featureTimestamp.value < e.timestamp)
  {
    var i :| 0 <= i < n && rows[i] == t;
    var j :| n <= j < |rows| && rows[j] == e;
    assert rows[i].timestamp <= rows[j].timestamp && rows[i].timestamp != rows[j].timestamp && !Leaks(rows[i]);
  }

  /** Three fifths of the rows train, rounded down; which records are refused, and in what order. */
  lemma SplitMeaning(records: seq<Row>)
    ensures var r, n := SplitRows(records), |records|;
      var repeated := exists i, j :: 0 <= i < j < n && records[i].timestamp == records[j].timestamp;
      var leaking := exists i :: 0 <= i < n && FromTheFuture(records[i]);
      && (n < 4 ==> r == Err(TooFewRecords))
      && (n >= 4 && repeated ==> r == Err(DuplicateTimestamps))
      && (n >= 4 && !repeated && leaking ==> r == Err(TemporalLeakage))
      && (n >= 4 && !repeated && !leaking ==>
        r.Ok? && 5 * |r.value.train| <= 3 * n < 5 * (|r.value.train| + 1) && |r.value.train| + |r.value.evaluation| == n)
  {
    hide SortByTime, DistinctTimes, Ascending, Leaks;
    var rows := SortByTime(records);
    SortKeeps(records);
    if DistinctTimes(records) {
      SameTimes(records, rows);
    }
    if DistinctTimes(rows) {
      SameTimes(rows, records);
    }
    SameLeaks(records, rows);
    SameLeaks(rows, records);
    DistinctMeaning(records);
    if exists i :: 0 <= i < |records| && Leaks(records[i]) {
      var i :| 0 <= i < |records| && Leaks(records[i]);
      LeakMeaning(records[i]);
    }
    forall i | 0 <= i < |records| && FromTheFuture(records[i]) ensures Leaks(records[i]) {
      LeakMeaning(records[i]);
    }
  }

  /** The row's features are later than the row. */
  ghost predicate FromTheFuture(r: Row) {
    r.featureTimestamp.Some? && r.timestamp < r.featureTimestamp.value
  }

  lemma LeakMeaning(r: Row)
    ensures Leaks(r) <==> FromTheFuture(r)
  {
  }

  lemma DistinctMeaning(rows: seq<Row>)
    ensures DistinctTimes(rows) <==> !(exists i, j :: 0 <= i < j < |rows| && rows[i].timestamp == rows[j].timestamp)
  {
  }

  lemma SameLeaks(xs: seq<Row>, ys: seq<Row>)
    requires multiset(xs) == multiset(ys)
    ensures (exists i :: 0 <= i < |xs| && Leaks(xs[i])) ==> exists i :: 0 <= i < |ys| && Leaks(ys[i])
  {
    if exists i :: 0 <= i < |xs| && Leaks(xs[i]) {
      var i :| 0 <= i < |xs| && Leaks(xs[i]);
      assert xs[i] in multiset(xs);
      assert xs[i] in ys;
    }
  }

  lemma SameTimes(xs: seq<Row>, ys: seq<Row>)
    requires multiset(xs) == multiset(ys) && DistinctTimes(xs)
    ensures DistinctTimes(ys)
  {
    forall i, j | 0 <= i < j < |ys| ensures ys[i].timestamp != ys[j].timestamp {
      if ys[i] == ys[j] {
        TwiceInside(ys, i, j);
        OnceInside(xs, ys[i]);
      } else {
        assert ys[i] in multiset(ys) && ys[j] in multiset(ys);
        assert ys[i] in xs && ys[j] in xs;
      }
    }
  }

  lemma TwiceInside(ys: seq<Row>, i: nat, j: nat)
    requires i < j < |ys| && ys[i] == ys[j]
    ensures multiset(ys)[ys[i]] >= 2
  {
    assert ys == ys[..j] + ys[j..] && ys[..j][i] == ys[i] && ys[j..][0] == ys[j];
  }

  lemma {:induction false} OnceInside(xs: seq<Row>, r: Row)
    requires DistinctTimes(xs)
    ensures multiset(xs)[r] <= 1
  {
    if xs != [] {
      assert xs == [xs[0]] + xs[1..];
      OnceInside(xs[1..], r);
      assert forall i :: 0 <= i < |xs| - 1 ==> xs[1..][i] == xs[i + 1];
      if xs[0] == r {
        assert r !in xs[1..];
      }
    }
  }

  // ---- Profit and loss ----

  function Distance(a: real, b: real): real { if a >= b then a - b else b - a }

  function Cost(r: Row): real { r.price + r.fee + r.slippage }

  predicate Traded(r: Row) {
    Distance(r.probability, r.price) >= r.buffer && 0.0 < Cost(r) < 1.0
  }

  function TradedRows(rows: seq<Row>): seq<Row> {
    if rows == [] then []
    else TradedRows(rows[..|rows| - 1]) + if Traded(rows[|rows| - 1]) then [rows[|rows| - 1]] else []
  }

  function Profit(r: Row): real { r.outcome - Cost(r) }

  /** The evaluation loop: one contract of every row that clears its buffer at a possible cost. */
  method Evaluate(rows: seq<Row>) returns (pnl: real, turnover: real, trades: nat)
    ensures trades == |TradedRows(rows)| <= |rows|
    ensures turnover == SumOf(TradedRows(rows), Cost)
    ensures pnl == SumOf(TradedRows(rows), Profit)
  {
    pnl, turnover, trades := 0.0, 0.0, 0;
    for i := 0 to |rows|
      invariant trades == |TradedRows(rows[..i])| <= i
      invariant turnover == SumOf(TradedRows(rows[..i]), Cost)
      invariant pnl == SumOf(TradedRows(rows[..i]), Profit)
    {
      var row := rows[i];
      assert rows[..i + 1][..i] == rows[..i];
      assert TradedRows(rows[..i]) + [] == TradedRows(rows[..i]);
      SumSnoc(TradedRows(rows[..i]), row, Cost);
      SumSnoc(TradedRows(rows[..i]), row, Profit);
      if Distance(row.probability, row.price) < row.buffer {
        continue;
      }
      var cost := row.price + row.fee + row.slippage;
      if !(0.0 < cost < 1.0) {
        continue;
      }
      pnl := pnl + (row.outcome - cost);
      turnover := turnover + cost;
      trades := trades + 1;
    }
    assert rows[..|rows|] == rows;
  }

  /** A row trades when forecast and price are a buffer apart and it costs between nothing and one, and pays less its cost. */
  lemma RowTrades(rows: seq<Row>, r: Row)
    ensures var cost := r.price + r.fee + r.slippage;
      TradedRows(rows + [r]) == TradedRows(rows)
        + if (r.probability - r.price >= r.buffer || r.price - r.probability >= r.buffer) && 0.0 < cost && cost < 1.0
          then [r] else []
    ensures Cost(r) == r.price + r.fee + r.slippage && Profit(r) == r.outcome - r.price - r.fee - r.slippage
  {
    assert (rows + [r])[..|rows|] == rows;
  }

  function OutcomeOf(r: Row): real { r.outcome }

  /** Profit is what the traded outcomes paid, less the turnover; each trade can win or lose less than one. */
  lemma ProfitIsPayoutLessTurnover(rows: seq<Row>)
    requires forall r :: r in rows ==> r.outcome == 0.0 || r.outcome == 1.0
    ensures var traded := TradedRows(rows);
      && SumOf(traded, Profit) == SumOf(traded, OutcomeOf) - SumOf(traded, Cost)
      && 0.0 <= SumOf(traded, Cost) <= |traded| as real
      && -(|traded| as real) <= SumOf(traded, Profit) <= |traded| as real
  {
    var traded := TradedRows(rows);
    TradedAreTraded(rows);
    SumLinear(traded, Profit, 1.0, OutcomeOf, -1.0, Cost);
    var one, minusOne := (r: Row) => 1.0, (r: Row) => -1.0;
    SumConstant(traded, one, 1.0);
    SumConstant(traded, minusOne, -1.0);
    SumMono(traded, Cost, one);
    SumNonNegative(traded, Cost);
    SumMono(traded, Profit, one);
    SumMono(traded, minusOne, Profit);
  }

  lemma {:induction false} TradedAreTraded(rows: seq<Row>)
    ensures forall r :: r in TradedRows(rows) ==> r in rows && Traded(r)
  {
    if rows != [] {
      TradedAreTraded(rows[..|rows| - 1]);
    }
  }

  // ---- Drawdown ----

  /** The equity after the first k results. */
  function Equity(pnl: seq<real>, k: nat): real
    requires k <= |pnl|
  {
    if k == 0 then 0.0 else Equity(pnl, k - 1) + pnl[k - 1]
  }

  /** d is the largest fall, up to point n, from any point of the equity curve to the same or a later one. */
  ghost predicate IsDrawdownTo(pnl: seq<real>, n: nat, d: real)
    requires n <= |pnl|
  {
    && (exists i, j :: 0 <= i <= j <= n && d == Equity(pnl, i) - Equity(pnl, j))
    && (forall i, j :: 0 <= i <= j <= n ==> Equity(pnl, i) - Equity(pnl, j) <= d)
  }

  ghost predicate IsDrawdown(pnl: seq<real>, d: real) {
    IsDrawdownTo(pnl, |pnl|, d)
  }

  lemma DrawdownUnique(pnl: seq<real>, a: real, b: real)
    requires IsDrawdown(pnl, a) && IsDrawdown(pnl, b)
    ensures a == b
  {
  }

  /** The highest equity up to point k. */
  ghost predicate IsPeak(pnl: seq<real>, k: nat, peak: real)
    requires k <= |pnl|
  {
    && (exists i :: 0 <= i <= k && peak == Equity(pnl, i))
    && (forall i :: 0 <= i <= k ==> Equity(pnl, i) <= peak)
  }

  lemma PeakStep(pnl: seq<real>, k: nat, peak: real)
    requires k < |pnl| && IsPeak(pnl, k, peak)
    ensures IsPeak(pnl, k + 1, Max(peak, Equity(pnl, k + 1)))
  {
    hide Equity;
  }

  lemma DrawdownStep(pnl: seq<real>, k: nat, peak: real, d: real)
    requires k < |pnl| && IsPeak(pnl, k + 1, peak) && IsDrawdownTo(pnl, k, d)
    ensures IsDrawdownTo(pnl, k + 1, Max(d, peak - Equity(pnl, k + 1)))
  {
    hide Equity;
    var worst := Max(d, peak - Equity(pnl, k + 1));
    forall x, y | 0 <= x <= y <= k + 1 ensures Equity(pnl, x) - Equity(pnl, y) <= worst {
      if y == k + 1 {
        assert Equity(pnl, x) <= peak;
      }
    }
  }

  lemma EquityStep(pnl: seq<real>, k: nat)
    requires k < |pnl|
    ensures Equity(pnl, k + 1) == Equity(pnl, k) + pnl[k]
  {
  }

  /** `_max_drawdown`: one pass gives the largest fall over all pairs of points. */
  method MaxDrawdown(pnl: seq<real>) returns (drawdown: real)
    ensures IsDrawdown(pnl, drawdown)
  {
    var peak, equity := 0.0, 0.0;
    drawdown := 0.0;
    assert IsPeak(pnl, 0, 0.0) && IsDrawdownTo(pnl, 0, 0.0) by {
      assert Equity(pnl, 0) == 0.0 && 0.0 == Equity(pnl, 0) - Equity(pnl, 0);
    }
    hide IsPeak, IsDrawdownTo, Equity;
    for k := 0 to |pnl|
      invariant equity == Equity(pnl, k)
      invariant IsPeak(pnl, k, peak)
      invariant IsDrawdownTo(pnl, k, drawdown)
    {
      EquityStep(pnl, k);
      PeakStep(pnl, k, peak);
      equity := equity + pnl[k];
      peak := Max(peak, equity);
      DrawdownStep(pnl, k, peak, drawdown);
      drawdown := Max(drawdown, peak - equity);
    }
  }

  // ---- The drawdown of an evaluation ----

  /** The results of the trades, in order. */
  function Results(rows: seq<Row>): (r: seq<real>)
    ensures |r| == |TradedRows(rows)| && forall k :: 0 <= k < |r| ==> r[k] == Profit(TradedRows(rows)[k])
  {
    var traded := TradedRows(rows);
    seq(|traded|, k requires 0 <= k < |traded| => Profit(traded[k]))
  }

  lemma {:induction false} EquityIsSum(traded: seq<Row>, pnl: seq<real>, k: nat)
    requires |pnl| == |traded| && forall i :: 0 <= i < |pnl| ==> pnl[i] == Profit(traded[i])
    requires k <= |pnl|
    ensures Equity(pnl, k) == SumOf(traded[..k], Profit)
  {
    if k > 0 {
      EquityIsSum(traded, pnl, k - 1);
      SumSnoc(traded[..k - 1], traded[k - 1], Profit);
      assert traded[..k] == traded[..k - 1] + [traded[k - 1]];
    }
  }

  /** The equity after the last trade is the profit. */
  lemma FinalEquity(rows: seq<Row>)
    ensures Equity(Results(rows), |Results(rows)|) == SumOf(TradedRows(rows), Profit)
  {
    EquityIsSum(TradedRows(rows), Results(rows), |Results(rows)|);
    assert TradedRows(rows)[..|Results(rows)|] == TradedRows(rows);
  }

  /** The largest fall that a list of only the total can show. */
  function DrawdownOfTotal(total: real): real {
    Max(0.0, -total)
  }

  lemma TotalDrawdown(total: real)
    ensures IsDrawdown([total], DrawdownOfTotal(total))
  {
    assert Equity([total], 0) == 0.0 && Equity([total], 1) == total;
    if total < 0.0 {
      assert DrawdownOfTotal(total) == Equity([total], 0) - Equity([total], 1);
    } else {
      assert DrawdownOfTotal(total) == Equity([total], 0) - Equity([total], 0);
    }
  }

  /** Evaluation and the drawdown it reports, which is that of the one-element list that holds the profit. */
  method EvaluateAndReport(rows: seq<Row>) returns (pnl: real, turnover: real, trades: nat, drawdown: real)
    ensures trades == |TradedRows(rows)| && turnover == SumOf(TradedRows(rows), Cost)
    ensures pnl == SumOf(TradedRows(rows), Profit) == Equity(Results(rows), |Results(rows)|)
    ensures drawdown == DrawdownOfTotal(pnl)
  {
    pnl, turnover, trades := Evaluate(rows);
    FinalEquity(rows);
    drawdown := MaxDrawdown([pnl]);
    TotalDrawdown(pnl);
    DrawdownUnique([pnl], drawdown, DrawdownOfTotal(pnl));
  }

  ghost predicate NeverFalls(pnl: seq<real>) {
    forall k :: 0 <= k < |pnl| ==> pnl[k] >= 0.0
  }

  /** The equity stays between its final value and its start. */
  ghost predicate BetweenEnds(pnl: seq<real>) {
    forall k :: 0 <= k <= |pnl| ==> Equity(pnl, |pnl|) <= Equity(pnl, k) <= 0.0
  }

  ghost predicate NoTradeLost(rows: seq<Row>) {
    forall r :: r in TradedRows(rows) ==> r.outcome == 1.0
  }

  lemma {:induction false} EquityRises(pnl: seq<real>, i: nat, j: nat)
    requires i <= j <= |pnl| && forall k :: 0 <= k < |pnl| ==> pnl[k] >= 0.0
    ensures Equity(pnl, i) <= Equity(pnl, j)
  {
    if i < j {
      EquityRises(pnl, i, j - 1);
    }
  }

  /** A trade wins or loses with its outcome, since it costs more than nothing and less than one. */
  lemma TradeResult(rows: seq<Row>, k: nat)
    requires k < |Results(rows)| && (forall r :: r in rows ==> r.outcome == 0.0 || r.outcome == 1.0)
    ensures TradedRows(rows)[k] in TradedRows(rows)
    ensures Results(rows)[k] >= 0.0 <==> TradedRows(rows)[k].outcome == 1.0
  {
    TradedAreTraded(rows);
    assert TradedRows(rows)[k] in TradedRows(rows);
  }

  lemma NoLossIffNoFall(rows: seq<Row>)
    requires forall r :: r in rows ==> r.outcome == 0.0 || r.outcome == 1.0
    ensures NeverFalls(Results(rows)) <==> NoTradeLost(rows)
  {
    forall k | 0 <= k < |Results(rows)|
      ensures Results(rows)[k] >= 0.0 <==> TradedRows(rows)[k].outcome == 1.0
    {
      TradeResult(rows, k);
    }
    hide TradedRows, Results, Profit;
    if NoTradeLost(rows) {
      assert forall k :: 0 <= k < |TradedRows(rows)| ==> TradedRows(rows)[k] in TradedRows(rows);
    }
  }

  /**
   * What the report shows for an evaluation never exceeds the drawdown of its trades, and is that drawdown exactly
   * when no trade lost, or the equity never rose above its start nor fell below its end.
   */
  lemma ReportedIff(rows: seq<Row>, d: real)
    requires forall r :: r in rows ==> r.outcome == 0.0 || r.outcome == 1.0
    requires IsDrawdown(Results(rows), d)
    ensures var reported := DrawdownOfTotal(SumOf(TradedRows(rows), Profit));
      && 0.0 <= reported <= d
      && (reported == d <==> NoTradeLost(rows) || BetweenEnds(Results(rows)))
  {
    hide IsDrawdown, NoTradeLost, BetweenEnds, Equity, Results, TradedRows, NeverFalls;
    FinalEquity(rows);
    NoLossIffNoFall(rows);
    TotalWithinPath(Results(rows), d);
    TotalAgainstPath(Results(rows), d);
  }

  lemma TotalWithinPath(pnl: seq<real>, d: real)
    requires IsDrawdown(pnl, d)
    ensures 0.0 <= DrawdownOfTotal(Equity(pnl, |pnl|)) <= d
  {
    hide Equity;
    assert Equity(pnl, 0) == 0.0 by { StartsAtZero(pnl); }
    assert Equity(pnl, 0) - Equity(pnl, 0) <= d;
    assert Equity(pnl, 0) - Equity(pnl, |pnl|) <= d;
  }

  lemma StartsAtZero(pnl: seq<real>)
    ensures Equity(pnl, 0) == 0.0
  {
  }

  lemma TotalAgainstPath(pnl: seq<real>, d: real)
    requires IsDrawdown(pnl, d)
    ensures DrawdownOfTotal(Equity(pnl, |pnl|)) == d <==> NeverFalls(pnl) || BetweenEnds(pnl)
  {
    TotalWithinPath(pnl, d);
    if NeverFalls(pnl) {
      NoFallNoDrawdown(pnl, d);
    }
    if BetweenEnds(pnl) {
      BetweenEndsDrawdown(pnl, d);
    }
    if DrawdownOfTotal(Equity(pnl, |pnl|)) == d && !NeverFalls(pnl) {
      TotalTellsPath(pnl, d);
    }
  }

  lemma NoFallNoDrawdown(pnl: seq<real>, d: real)
    requires IsDrawdown(pnl, d) && NeverFalls(pnl)
    ensures DrawdownOfTotal(Equity(pnl, |pnl|)) == d
  {
    var i, j :| 0 <= i <= j <= |pnl| && d == Equity(pnl, i) - Equity(pnl, j);
    EquityRises(pnl, i, j);
    EquityRises(pnl, 0, |pnl|);
    TotalWithinPath(pnl, d);
  }

  lemma BetweenEndsDrawdown(pnl: seq<real>, d: real)
    requires IsDrawdown(pnl, d) && BetweenEnds(pnl)
    ensures DrawdownOfTotal(Equity(pnl, |pnl|)) == d
  {
    hide Equity;
    TotalWithinPath(pnl, d);
    var i, j :| 0 <= i <= j <= |pnl| && d == Equity(pnl, i) - Equity(pnl, j);
    assert Equity(pnl, |pnl|) <= Equity(pnl, i) <= 0.0 && Equity(pnl, |pnl|) <= Equity(pnl, j) <= 0.0;
  }

  lemma TotalTellsPath(pnl: seq<real>, d: real)
    requires IsDrawdown(pnl, d) && DrawdownOfTotal(Equity(pnl, |pnl|)) == d && !NeverFalls(pnl)
    ensures BetweenEnds(pnl)
  {
    var n := |pnl|;
    StartsAtZero(pnl);
    var k :| 0 <= k < n && pnl[k] < 0.0;
    assert Equity(pnl, k) - Equity(pnl, k + 1) <= d;
    assert d > 0.0;
    hide Equity;
    forall m | 0 <= m <= n ensures Equity(pnl, n) <= Equity(pnl, m) <= 0.0 {
      assert Equity(pnl, m) - Equity(pnl, n) <= d;
      assert Equity(pnl, 0) - Equity(pnl, m) <= d;
    }
  }

  /** Four accepted records whose evaluation loses 0.5 and then wins 0.6: the report shows no drawdown. */
  lemma HiddenLossExample() returns (records: seq<Row>)
    ensures |records| == 4 && (forall r :: r in records ==> r.outcome == 0.0 || r.outcome == 1.0)
    ensures SplitRows(records).Ok?
    ensures var rows := SplitRows(records).value.evaluation;
      && Results(rows) == [-0.5, 0.6]
      && IsDrawdown(Results(rows), 0.5)
      && DrawdownOfTotal(SumOf(TradedRows(rows), Profit)) == 0.0
  {
    var a, b := Row(1, None, 0.5, 0.0, 0.5, 0.0, 0.0, 0.05), Row(2, None, 0.5, 1.0, 0.5, 0.0, 0.0, 0.05);
    var lost, won := Row(3, None, 0.9, 0.0, 0.5, 0.0, 0.0, 0.05), Row(4, None, 0.9, 1.0, 0.4, 0.0, 0.0, 0.05);
    records := [a, b, lost, won];
    hide SplitRows, Results, TradedRows, IsDrawdown, SumOf, DrawdownOfTotal;
    SplitInHalf(a, b, lost, won);
    LossIsHidden(lost, won);
  }

  lemma LossIsHidden(lost: Row, won: Row)
    requires Traded(lost) && Traded(won) && Profit(lost) == -0.5 && Profit(won) == 0.6
    ensures var rows := [lost, won];
      && Results(rows) == [-0.5, 0.6]
      && IsDrawdown(Results(rows), 0.5)
      && DrawdownOfTotal(SumOf(TradedRows(rows), Profit)) == 0.0
  {
    hide Traded, Profit, Results, TradedRows, IsDrawdown, Equity, SumOf;
    BothTraded(lost, won);
    FinalEquity([lost, won]);
    LossThenWin();
  }

  lemma SplitInHalf(a: Row, b: Row, c: Row, d: Row)
    requires a.timestamp < b.timestamp < c.timestamp < d.timestamp
    requires !Leaks(a) && !Leaks(b) && !Leaks(c) && !Leaks(d)
    ensures SplitRows([a, b, c, d]) == Ok(Split([a, b], [c, d]))
  {
    hide SortByTime, Leaks;
    SortedAlready(a, b, c, d);
    assert [a, b, c, d][..2] == [a, b] && [a, b, c, d][2..] == [c, d];
  }

  lemma SortedAlready(a: Row, b: Row, c: Row, d: Row)
    requires a.timestamp < b.timestamp < c.timestamp < d.timestamp
    ensures SortByTime([a, b, c, d]) == [a, b, c, d]
  {
    assert [a, b, c, d][1..] == [b, c, d] && [b, c, d][1..] == [c, d] && [c, d][1..] == [d] && [d][1..] == [];
    assert SortByTime([d]) == [d];
    assert SortByTime([c, d]) == Insert(c, [d]) == [c, d];
    assert SortByTime([b, c, d]) == Insert(b, [c, d]) == [b, c, d];
  }

  lemma BothTraded(x: Row, y: Row)
    requires Traded(x) && Traded(y)
    ensures TradedRows([x, y]) == [x, y] && Results([x, y]) == [Profit(x), Profit(y)]
  {
    assert [x, y][..1] == [x] && [x][..0] == [];
    assert TradedRows([x]) == [x];
  }

  lemma LossThenWin()
    ensures IsDrawdown([-0.5, 0.6], 0.5) && Equity([-0.5, 0.6], 2) == 0.1
  {
    var pnl := [-0.5, 0.6];
    assert Equity(pnl, 0) == 0.0 && Equity(pnl, 1) == -0.5 && Equity(pnl, 2) == 0.1;
    assert 0.5 == Equity(pnl, 0) - Equity(pnl, 1);
  }
}
