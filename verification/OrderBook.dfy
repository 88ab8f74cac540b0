/** Order-book validation and the execution price of a required size (app/services/crypto_pipeline.py). */
module OrderBook {
  import opened Outcomes
  import opened Products

  /** A price level; the schema requires 0 <= price <= 1 and a positive size. */
  datatype Level = Level(price: real, size: real) {
    predicate Valid() { 0.0 <= price <= 1.0 && size > 0.0 }
  }

  datatype Book = Book(
    bids: seq<Level>, asks: seq<Level>, bestBid: Option<real>, bestAsk: Option<real>, spread: Option<real>,
    midpoint: Option<real>, availableDepth: real, minimumOrderSize: real, tickSize: real)

  datatype BookError = Incomplete | FinancialInvariant | LevelOrder | TickMismatch

  ghost predicate Ascending(levels: seq<Level>) {
    forall i, j :: 0 <= i < j < |levels| ==> levels[i].price <= levels[j].price
  }

  ghost predicate AllValid(levels: seq<Level>) {
    forall l :: l in levels ==> l.Valid()
  }

  /** Sorting a tuple by price leaves it alone exactly when no neighbour pair is out of order. */
  predicate InOrder(levels: seq<Level>) {
    forall i :: 0 < i < |levels| ==> levels[i - 1].price <= levels[i].price
  }

  predicate InReverseOrder(levels: seq<Level>) {
    forall i :: 0 < i < |levels| ==> levels[i - 1].price >= levels[i].price
  }

  function Depth(levels: seq<Level>): real {
    if levels == [] then 0.0 else levels[0].size + Depth(levels[1..])
  }

  predicate OnTick(price: real, tick: real)
    requires tick > 0.0
  {
    price / tick == (price / tick).Floor as real
  }

  predicate InUnit(x: real) { 0.0 <= x <= 1.0 }

  function ValidateOrderBook(b: Book): Option<BookError> {
    if b.bestBid.None? || b.bestAsk.None? || b.midpoint.None? || b.spread.None? then Some(Incomplete)
    else
      var bid, ask := b.bestBid.value, b.bestAsk.value;
      if !(InUnit(bid) && InUnit(ask) && InUnit(b.midpoint.value) && InUnit(b.spread.value)) then Some(FinancialInvariant)
      else if ask < bid || b.spread.value != ask - bid then Some(FinancialInvariant)
      else if b.midpoint.value != (ask + bid) / 2.0 then Some(FinancialInvariant)
      else if b.availableDepth < 0.0 || b.minimumOrderSize <= 0.0 || b.tickSize <= 0.0 then Some(FinancialInvariant)
      else if !InOrder(b.asks) || !InReverseOrder(b.bids) then Some(LevelOrder)
      else if b.asks == [] || b.bids == [] then Some(Incomplete)
      else if ask != b.asks[0].price || bid != b.bids[0].price then Some(FinancialInvariant)
      else if b.availableDepth != Depth(b.asks) then Some(FinancialInvariant)
      else if exists i :: 0 <= i < |b.bids + b.asks| && !OnTick((b.bids + b.asks)[i].price, b.tickSize) then Some(TickMismatch)
      else None
  }

  // ---- What a fill costs ----

  /** An allocation takes from each level at most what it offers, and `quantity` in total. */
  ghost predicate Feasible(asks: seq<Level>, alloc: seq<real>, quantity: real) {
    && |alloc| == |asks|
    && (forall i :: 0 <= i < |asks| ==> 0.0 <= alloc[i] <= asks[i].size)
    && Total(alloc) == quantity
  }

  function Total(alloc: seq<real>): real {
    if alloc == [] then 0.0 else alloc[0] + Total(alloc[1..])
  }

  function Cost(asks: seq<Level>, alloc: seq<real>): real
    requires |alloc| == |asks|
  {
    if asks == [] then 0.0 else Times(alloc[0], asks[0].price) + Cost(asks[1..], alloc[1..])
  }

  /** The allocation that empties the levels in order. */
  function Greedy(asks: seq<Level>, quantity: real): (alloc: seq<real>)
    ensures |alloc| == |asks|
  {
    if asks == [] then []
    else var take := Min(quantity, asks[0].size); [take] + Greedy(asks[1..], quantity - take)
  }

  /** The price of the last level a fill of `quantity` reaches. */
  function LastTouched(asks: seq<Level>, quantity: real): real
    requires asks != []
  {
    if |asks| == 1 || quantity <= asks[0].size then asks[0].price
    else LastTouched(asks[1..], quantity - asks[0].size)
  }

  function Vwap(asks: seq<Level>, quantity: real): Option<real>
    requires quantity > 0.0
  {
    if Depth(asks) < quantity then None else Some(Cost(asks, Greedy(asks, quantity)) / quantity)
  }

  /** The order-walking loop. `_side_candidate` has already refused a size that is not positive. */
  method ExecutionVwap(asks: seq<Level>, required: real) returns (r: Option<real>)
    requires required > 0.0 && AllValid(asks)
    ensures r == Vwap(asks, required)
  {
    hide Cost, Greedy, Times;
    var remaining, total := required, 0.0;
    assert asks[0..] == asks;
    for i := 0 to |asks|
      invariant remaining > 0.0
      invariant total + Cost(asks[i..], Greedy(asks[i..], remaining)) == Cost(asks, Greedy(asks, required))
      invariant Depth(asks[i..]) - remaining == Depth(asks) - required
    {
      assert asks[i..][0] == asks[i] && asks[i..][1..] == asks[i + 1..];
      assert asks[i].Valid();
      var filled := Min(remaining, asks[i].size);
      WalkStep(asks[i..], remaining, filled);
      total := total + Times(filled, asks[i].price);
      remaining := remaining - filled;
      if remaining == 0.0 {
        NothingLeft(asks[i + 1..]);
        DepthNonNegative(asks[i + 1..]);
        return Some(total / required);
      }
    }
    return None;
  }

  /** The greedy cost, one level at a time. */
  lemma WalkStep(asks: seq<Level>, quantity: real, take: real)
    requires asks != [] && take == Min(quantity, asks[0].size)
    ensures Cost(asks, Greedy(asks, quantity)) ==
      Times(take, asks[0].price) + Cost(asks[1..], Greedy(asks[1..], quantity - take))
  {
    assert Greedy(asks, quantity)[1..] == Greedy(asks[1..], quantity - take);
  }

  lemma {:induction false} DepthNonNegative(asks: seq<Level>)
    requires AllValid(asks)
    ensures Depth(asks) >= 0.0
  {
    if asks != [] {
      assert asks[0].Valid();
      DepthNonNegative(asks[1..]);
    }
  }

  lemma {:induction false} NothingLeft(asks: seq<Level>)
    requires AllValid(asks)
    ensures Cost(asks, Greedy(asks, 0.0)) == 0.0
  {
    if asks != [] {
      assert asks[0].Valid();
      WalkStep(asks, 0.0, 0.0);
      NothingLeft(asks[1..]);
      Units(asks[0].price);
    }
  }

  lemma {:induction false} GreedyFeasible(asks: seq<Level>, quantity: real)
    requires AllValid(asks) && 0.0 <= quantity <= Depth(asks)
    ensures Feasible(asks, Greedy(asks, quantity), quantity)
  {
    if asks != [] {
      assert asks[0].Valid();
      DepthNonNegative(asks[1..]);
      var take := Min(quantity, asks[0].size);
      GreedyFeasible(asks[1..], quantity - take);
      assert Greedy(asks, quantity)[1..] == Greedy(asks[1..], quantity - take);
    }
  }

  /** Buying d more raises the greedy cost by at least d times any price that no level undercuts. */
  lemma {:induction false} ExtraCost(asks: seq<Level>, quantity: real, d: real, price: real)
    requires AllValid(asks) && 0.0 <= quantity && 0.0 <= d && quantity + d <= Depth(asks)
    requires forall l :: l in asks ==> price <= l.price
    ensures Cost(asks, Greedy(asks, quantity + d)) >= Cost(asks, Greedy(asks, quantity)) + Times(d, price)
  {
    hide Cost, Greedy, Times;
    if asks == [] {
      Units(price);
    } else {
      assert asks[0].Valid();
      DepthNonNegative(asks[1..]);
      var p, less, more := asks[0].price, Min(quantity, asks[0].size), Min(quantity + d, asks[0].size);
      var e := more - less;
      ExtraCost(asks[1..], quantity - less, d - e, price);
      WalkStep(asks, quantity, less);
      WalkStep(asks, quantity + d, more);
      assert quantity - less + (d - e) == quantity + d - more;
      Mono(e, price, p);
      Distribute(less, e, p);
      Distribute(d - e, e, price);
    }
  }

  /** Each fill of a feasible allocation is within its total. */
  lemma {:induction false} TotalNonNegative(alloc: seq<real>)
    requires forall i :: 0 <= i < |alloc| ==> 0.0 <= alloc[i]
    ensures Total(alloc) >= 0.0
  {
    if alloc != [] {
      TotalNonNegative(alloc[1..]);
    }
  }

  lemma {:induction false} FeasibleWithinDepth(asks: seq<Level>, alloc: seq<real>, quantity: real)
    requires Feasible(asks, alloc, quantity)
    ensures quantity <= Depth(asks)
  {
    if asks != [] {
      FeasibleWithinDepth(asks[1..], alloc[1..], quantity - alloc[0]);
    }
  }

  /** On ascending asks no feasible allocation is cheaper than the greedy walk. */
  lemma {:induction false} GreedyIsCheapest(asks: seq<Level>, alloc: seq<real>, quantity: real)
    requires AllValid(asks) && Ascending(asks) && Feasible(asks, alloc, quantity)
    ensures Cost(asks, Greedy(asks, quantity)) <= Cost(asks, alloc)
  {
    if asks != [] {
      hide Greedy, Times;
      var p, rest := asks[0].price, alloc[1..];
      var take := FirstTake(asks, alloc, quantity);
      WalkStep(asks, quantity, take);
      GreedyIsCheapest(asks[1..], rest, quantity - alloc[0]);
      FeasibleWithinDepth(asks[1..], rest, quantity - alloc[0]);
      ExtraCost(asks[1..], quantity - take, take - alloc[0], p);
      assert quantity - take + (take - alloc[0]) == quantity - alloc[0];
      Distribute(alloc[0], take - alloc[0], p);
    }
  }

  /** What the walk takes from the first level, and how a feasible allocation relates to it. */
  lemma FirstTake(asks: seq<Level>, alloc: seq<real>, quantity: real) returns (take: real)
    requires asks != [] && AllValid(asks) && Ascending(asks) && Feasible(asks, alloc, quantity)
    ensures take == Min(quantity, asks[0].size) && 0.0 <= alloc[0] <= take <= quantity
    ensures Feasible(asks[1..], alloc[1..], quantity - alloc[0])
    ensures AllValid(asks[1..]) && Ascending(asks[1..])
    ensures forall l :: l in asks[1..] ==> asks[0].price <= l.price
  {
    take := Min(quantity, asks[0].size);
    TotalNonNegative(alloc[1..]);
  }

  /** The quoted price times the size is the least any fill of that size can cost; no quote means no fill exists. */
  lemma VwapIsCheapest(asks: seq<Level>, quantity: real)
    requires AllValid(asks) && Ascending(asks) && quantity > 0.0
    ensures Vwap(asks, quantity).None? <==> !exists alloc :: Feasible(asks, alloc, quantity)
    ensures Vwap(asks, quantity).Some? ==>
      && (exists alloc :: Feasible(asks, alloc, quantity) && Cost(asks, alloc) == Vwap(asks, quantity).value * quantity)
      && (forall alloc :: Feasible(asks, alloc, quantity) ==> Vwap(asks, quantity).value * quantity <= Cost(asks, alloc))
  {
    hide Cost, Greedy;
    if Vwap(asks, quantity).Some? {
      GreedyFeasible(asks, quantity);
    }
    forall alloc | Feasible(asks, alloc, quantity)
      ensures quantity <= Depth(asks) && Cost(asks, Greedy(asks, quantity)) <= Cost(asks, alloc)
    {
      FeasibleWithinDepth(asks, alloc, quantity);
      GreedyIsCheapest(asks, alloc, quantity);
    }
  }

  lemma {:induction false} CostBetween(asks: seq<Level>, quantity: real, low: real)
    requires asks != [] && AllValid(asks) && Ascending(asks) && 0.0 <= quantity <= Depth(asks)
    requires low <= asks[0].price
    ensures Times(low, quantity) <= Cost(asks, Greedy(asks, quantity)) <= Times(LastTouched(asks, quantity), quantity)
    ensures asks[0].price <= LastTouched(asks, quantity)
  {
    hide Cost, Greedy, Times;
    var p, s, last := asks[0].price, asks[0].size, LastTouched(asks, quantity);
    assert asks[0].Valid();
    WalkStep(asks, quantity, Min(quantity, s));
    TimesCommute(Min(quantity, s), p);
    if |asks| == 1 {
      assert asks[1..] == [];
    }
    if quantity <= s {
      NothingLeft(asks[1..]);
      Mono(quantity, low, p);
    } else {
      CostBetween(asks[1..], quantity - s, low);
      assert asks[1..][0] == asks[1] && p <= asks[1].price;
      Distribute(s, quantity - s, low);
      Distribute(s, quantity - s, last);
      Mono(s, low, p);
      Mono(s, p, last);
    }
  }

  lemma TimesCommute(a: real, b: real)
    ensures Times(a, b) == Times(b, a)
  {
  }

  /** The price lies between the best ask and the last level reached. */
  lemma VwapBetween(asks: seq<Level>, quantity: real)
    requires AllValid(asks) && Ascending(asks) && quantity > 0.0 && Vwap(asks, quantity).Some?
    ensures asks != [] && asks[0].price <= Vwap(asks, quantity).value <= LastTouched(asks, quantity)
  {
    hide Times;
    var cost := Cost(asks, Greedy(asks, quantity));
    CostBetween(asks, quantity, asks[0].price);
    Quotient(cost, quantity);
    Cancel(asks[0].price, cost / quantity, quantity);
    Cancel(cost / quantity, LastTouched(asks, quantity), quantity);
  }

  /** Taking the same share of every level scales size and cost alike. */
  lemma {:induction false} Scaled(asks: seq<Level>, alloc: seq<real>, quantity: real, c: real) returns (part: seq<real>)
    requires Feasible(asks, alloc, quantity) && 0.0 <= c <= 1.0
    ensures Feasible(asks, part, Times(c, quantity)) && Cost(asks, part) == Times(c, Cost(asks, alloc))
  {
    hide Times;
    Units(c);
    if asks == [] {
      part := [];
    } else {
      var a := alloc[0];
      var rest := Scaled(asks[1..], alloc[1..], quantity - a, c);
      part := [Times(c, a)] + rest;
      Mono(a, 0.0, c);
      Mono(a, c, 1.0);
      Units(a);
      Distribute(a, quantity - a, c);
      Distribute(Times(a, asks[0].price), Cost(asks[1..], alloc[1..]), c);
      Associate(c, a, asks[0].price);
      FeasibleCons(asks, Times(c, a), rest, Times(c, quantity));
    }
  }

  lemma FeasibleCons(asks: seq<Level>, first: real, rest: seq<real>, quantity: real)
    requires asks != [] && 0.0 <= first <= asks[0].size && Feasible(asks[1..], rest, quantity - first)
    ensures Feasible(asks, [first] + rest, quantity)
    ensures Cost(asks, [first] + rest) == Times(first, asks[0].price) + Cost(asks[1..], rest)
  {
    var alloc := [first] + rest;
    assert alloc[1..] == rest;
    forall i | 0 <= i < |asks| ensures 0.0 <= alloc[i] <= asks[i].size {
      if i > 0 {
        assert 0.0 <= rest[i - 1] <= asks[1..][i - 1].size;
      }
    }
  }

  /** Asking for more never lowers the average price. */
  lemma VwapMonotone(asks: seq<Level>, small: real, large: real)
    requires AllValid(asks) && Ascending(asks) && 0.0 < small <= large && Vwap(asks, large).Some?
    ensures Vwap(asks, small).Some? && Vwap(asks, small).value <= Vwap(asks, large).value
  {
    hide Cost, Greedy, Times;
    var c, u, v := small / large, Vwap(asks, small).value, Vwap(asks, large).value;
    Quotient(small, large);
    Units(large);
    Cancel(c, 1.0, large);
    Cancel(0.0, c, large);
    GreedyFeasible(asks, large);
    var part := Scaled(asks, Greedy(asks, large), large, c);
    GreedyIsCheapest(asks, part, small);
    // The scaled fill costs the large fill's average price per share.
    var cost := Cost(asks, Greedy(asks, large));
    Quotient(cost, large);
    TimesCommute(v, large);
    Associate(c, large, v);
    Quotient(Cost(asks, Greedy(asks, small)), small);
    TimesCommute(v, small);
    Cancel(u, v, small);
  }

  /** An accepted book has ascending asks, its best ask is the cheapest, and a size is executable iff it is within the stated depth. */
  lemma AcceptedBook(b: Book, required: real)
    requires ValidateOrderBook(b).None? && required > 0.0
    ensures Ascending(b.asks) && b.asks != []
    ensures forall l :: l in b.asks ==> b.bestAsk.value <= l.price
    ensures Vwap(b.asks, required).Some? <==> required <= b.availableDepth
  {
    InOrderAscending(b.asks);
  }

  /** Prices are whole multiples of the tick. */
  ghost predicate AllOnTick(levels: seq<Level>, tick: real) {
    forall i :: 0 <= i < |levels| ==> IsTick(levels[i].price, tick)
  }

  ghost predicate IsTick(price: real, tick: real) {
    exists k: int :: IsTicks(price, tick, k)
  }

  ghost predicate IsTicks(price: real, tick: real, k: int) {
    price == Times(k as real, tick)
  }

  lemma OnTickMeaning(price: real, tick: real)
    requires tick > 0.0
    ensures OnTick(price, tick) <==> IsTick(price, tick)
  {
    Quotient(price, tick);
    if OnTick(price, tick) {
      assert IsTicks(price, tick, (price / tick).Floor);
    }
    if IsTick(price, tick) {
      var k: int :| IsTicks(price, tick, k);
      Cancel(price / tick, k as real, tick);
      Cancel(k as real, price / tick, tick);
    }
  }

  /** The quoted summary is that of the sides: best prices at the front, their difference and their middle, the total ask size. */
  ghost predicate Consistent(b: Book) {
    && b.asks != [] && b.bids != []
    && b.bestAsk == Some(b.asks[0].price) && b.bestBid == Some(b.bids[0].price)
    && b.spread == Some(b.asks[0].price - b.bids[0].price) && b.asks[0].price >= b.bids[0].price
    && b.midpoint.Some? && b.midpoint.value - b.bids[0].price == b.asks[0].price - b.midpoint.value
    && b.availableDepth == Depth(b.asks)
  }

  /**
   * A book of valid levels is accepted exactly when asks ascend and bids descend, the summary is consistent with
   * them, and every price is a whole multiple of a positive tick.
   */
  lemma AcceptedBookIff(b: Book)
    requires AllValid(b.asks) && AllValid(b.bids)
    ensures ValidateOrderBook(b).None? <==>
      && Consistent(b) && b.minimumOrderSize > 0.0 && b.tickSize > 0.0
      && (forall i, j :: 0 <= i < j < |b.asks| ==> b.asks[i].price <= b.asks[j].price)
      && (forall i, j :: 0 <= i < j < |b.bids| ==> b.bids[i].price >= b.bids[j].price)
      && AllOnTick(b.asks, b.tickSize) && AllOnTick(b.bids, b.tickSize)
  {
    hide OnTick, IsTick, Depth;
    InOrderIff(b.asks);
    InReverseOrderIff(b.bids);
    DepthNonNegative(b.asks);
    if b.asks != [] && b.bids != [] {
      assert b.asks[0] in b.asks && b.bids[0] in b.bids;
      assert b.asks[0].Valid() && b.bids[0].Valid();
    }
    if b.tickSize > 0.0 {
      TicksIff(b);
    }
  }

  lemma TicksIff(b: Book)
    requires b.tickSize > 0.0
    ensures (exists i :: 0 <= i < |b.bids + b.asks| && !OnTick((b.bids + b.asks)[i].price, b.tickSize))
      <==> !(AllOnTick(b.asks, b.tickSize) && AllOnTick(b.bids, b.tickSize))
  {
    hide OnTick, IsTick;
    var all := b.bids + b.asks;
    forall i | 0 <= i < |all| ensures OnTick(all[i].price, b.tickSize) <==> IsTick(all[i].price, b.tickSize) {
      OnTickMeaning(all[i].price, b.tickSize);
    }
    forall i | 0 <= i < |b.bids| ensures all[i] == b.bids[i] {
    }
    forall i | 0 <= i < |b.asks| ensures all[|b.bids| + i] == b.asks[i] {
    }
  }

  lemma InOrderIff(levels: seq<Level>)
    ensures InOrder(levels) <==> forall i, j :: 0 <= i < j < |levels| ==> levels[i].price <= levels[j].price
  {
    if InOrder(levels) {
      InOrderAscending(levels);
    }
  }

  lemma InReverseOrderIff(levels: seq<Level>)
    ensures InReverseOrder(levels) <==> forall i, j :: 0 <= i < j < |levels| ==> levels[i].price >= levels[j].price
  {
    if InReverseOrder(levels) {
      forall i, j | 0 <= i < j < |levels| ensures levels[i].price >= levels[j].price {
        FallsFrom(levels, i, j);
      }
    }
  }

  lemma {:induction false} FallsFrom(levels: seq<Level>, i: nat, j: nat)
    requires InReverseOrder(levels) && i < j < |levels|
    ensures levels[i].price >= levels[j].price
  {
    if i < j - 1 {
      FallsFrom(levels, i, j - 1);
    }
  }

  lemma InOrderAscending(levels: seq<Level>)
    requires InOrder(levels)
    ensures Ascending(levels)
  {
    forall i, j | 0 <= i < j < |levels| ensures levels[i].price <= levels[j].price {
      OrderedFrom(levels, i, j);
    }
  }

  lemma {:induction false} OrderedFrom(levels: seq<Level>, i: nat, j: nat)
    requires InOrder(levels) && i < j < |levels|
    ensures levels[i].price <= levels[j].price
  {
    assert levels[j - 1].price <= levels[j].price;
    if i < j - 1 {
      OrderedFrom(levels, i, j - 1);
    }
  }
}
