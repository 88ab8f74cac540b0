/** Candle normalization and the forecast horizon (app/services/crypto_data.py, app/services/crypto_pipeline.py). */
module Candles {
  import opened Outcomes
  import opened Division
  import opened Products
  import opened Text

  /** Times are microseconds since the epoch. */
  const SECOND: int := 1_000_000

  const MAX_HORIZON: int := 24 * 31

  datatype Candle = Candle(timestamp: int, close: real)

  datatype Flag = SourceDescendingReversed | IncompleteCurrentCandleRemoved

  datatype Series = Series(candles: seq<Candle>, latestAt: int, intervalSeconds: int, flags: seq<Flag>)

  /** The quality errors, and the two Python errors the function can raise on unusual arguments. */
  datatype QualityError =
    | SourceMissing | InvalidInterval | InvalidClose | InsufficientHistory | DuplicateCandle | OutOfOrderCandles
    | CandleMisaligned | CandleGap | FutureCandle | StaleData | ZeroDivision | NoLastCandle

  predicate Distinct(cs: seq<Candle>) {
    forall i, j :: 0 <= i < j < |cs| ==> cs[i].timestamp != cs[j].timestamp
  }

  /** Distinct timestamps equal their own sort exactly when they increase. */
  predicate Increasing(cs: seq<Candle>) {
    forall i, j :: 0 <= i < j < |cs| ==> cs[i].timestamp < cs[j].timestamp
  }

  function Reversed(cs: seq<Candle>): (r: seq<Candle>)
    ensures |r| == |cs| && forall i :: 0 <= i < |r| ==> r[i] == cs[|cs| - 1 - i]
  {
    seq(|cs|, i requires 0 <= i < |cs| => cs[|cs| - 1 - i])
  }

  function FirstMisaligned(cs: seq<Candle>, intervalSeconds: int): Option<QualityError>
    requires intervalSeconds >= 0
  {
    if cs == [] then None
    else if cs[0].timestamp % SECOND != 0 then Some(CandleMisaligned)
    else if intervalSeconds == 0 then Some(ZeroDivision)
    else if (cs[0].timestamp / SECOND) % intervalSeconds != 0 then Some(CandleMisaligned)
    else FirstMisaligned(cs[1..], intervalSeconds)
  }

  predicate Follows(cs: seq<Candle>, i: int, interval: int)
    requires 0 < i < |cs|
  {
    cs[i].timestamp - cs[i - 1].timestamp == interval
  }

  predicate NoGap(cs: seq<Candle>, interval: int) {
    forall i :: 0 < i < |cs| ==> Follows(cs, i, interval)
  }

  /** The candles that are over by `now`, in order. */
  function Complete(cs: seq<Candle>, interval: int, now: int): seq<Candle> {
    if cs == [] then []
    else (if cs[0].timestamp + interval <= now then [cs[0]] else []) + Complete(cs[1..], interval, now)
  }

  predicate BadClose(rows: seq<Candle>) {
    exists i :: 0 <= i < |rows| && rows[i].close <= 0.0
  }

  function Normalize(
    source: string, rows: seq<Candle>, now: int, interval: int, freshness: int, minHistory: int)
    : Result<Series, QualityError>
  {
    if Strip(source) == "" then Err(SourceMissing)
    else if interval <= 0 then Err(InvalidInterval)
    else if BadClose(rows) then Err(InvalidClose)
    else if rows == [] then Err(InsufficientHistory)
    else if !Distinct(rows) then Err(DuplicateCandle)
    else if Increasing(rows) then Checked(rows, now, interval, freshness, minHistory, [])
    else if source == "coinbase" && Increasing(Reversed(rows)) then
      Checked(Reversed(rows), now, interval, freshness, minHistory, [SourceDescendingReversed])
    else Err(OutOfOrderCandles)
  }

  /** The checks on candles in ascending order. */
  function Checked(
    ordered: seq<Candle>, now: int, interval: int, freshness: int, minHistory: int, flags: seq<Flag>)
    : Result<Series, QualityError>
    requires interval > 0
  {
    var intervalSeconds := interval / SECOND;
    var misaligned := FirstMisaligned(ordered, intervalSeconds);
    if misaligned.Some? then Err(misaligned.value)
    else if !NoGap(ordered, interval) then Err(CandleGap)
    else if exists i :: 0 <= i < |ordered| && ordered[i].timestamp > now then Err(FutureCandle)
    else
      var complete := Complete(ordered, interval, now);
      if |complete| < minHistory then Err(InsufficientHistory)
      else if complete == [] then Err(NoLastCandle)
      else
        var latestAt := complete[|complete| - 1].timestamp + interval;
        if now - latestAt > freshness then Err(StaleData)
        else Ok(Series(complete, latestAt, intervalSeconds,
          flags + if |complete| != |ordered| then [IncompleteCurrentCandleRemoved] else []))
  }

  // ---- What an accepted series is ----

  ghost predicate Aligned(cs: seq<Candle>, intervalSeconds: int)
    requires intervalSeconds > 0
  {
    forall i :: 0 <= i < |cs| ==> cs[i].timestamp % SECOND == 0 && (cs[i].timestamp / SECOND) % intervalSeconds == 0
  }

  lemma {:induction false} AlignedIff(cs: seq<Candle>, intervalSeconds: int)
    requires intervalSeconds > 0
    ensures FirstMisaligned(cs, intervalSeconds).None? <==> Aligned(cs, intervalSeconds)
  {
    if cs != [] {
      AlignedIff(cs[1..], intervalSeconds);
      if Aligned(cs, intervalSeconds) {
        assert forall i :: 0 <= i < |cs| - 1 ==> cs[1..][i] == cs[i + 1];
      }
      if Aligned(cs[1..], intervalSeconds) && FirstMisaligned(cs, intervalSeconds).None? {
        forall i | 0 <= i < |cs|
          ensures cs[i].timestamp % SECOND == 0 && (cs[i].timestamp / SECOND) % intervalSeconds == 0
        {
          if i > 0 {
            assert cs[i] == cs[1..][i - 1];
          }
        }
      }
    }
  }

  lemma NoIntervalNoSeries(cs: seq<Candle>)
    ensures cs != [] ==> FirstMisaligned(cs, 0).Some?
  {
  }

  lemma NoGapTail(cs: seq<Candle>, interval: int)
    requires cs != [] && NoGap(cs, interval)
    ensures NoGap(cs[1..], interval)
  {
    forall i | 0 < i < |cs[1..]| ensures Follows(cs[1..], i, interval) {
      assert Follows(cs, i + 1, interval);
    }
  }

  /** Candles that have begun and follow each other: all but perhaps the newest are complete. */
  lemma {:induction false} CompleteIsPrefix(cs: seq<Candle>, interval: int, now: int)
    requires interval > 0 && NoGap(cs, interval)
    requires forall i :: 0 <= i < |cs| ==> cs[i].timestamp <= now
    ensures var dropped := cs != [] && now < cs[|cs| - 1].timestamp + interval;
      Complete(cs, interval, now) == if dropped then cs[..|cs| - 1] else cs
  {
    if cs != [] {
      var t := cs[1..];
      NoGapTail(cs, interval);
      CompleteIsPrefix(t, interval, now);
      if t != [] {
        assert t[|t| - 1] == cs[|cs| - 1];
        assert Follows(cs, 1, interval);
        assert [cs[0]] + t[..|t| - 1] == cs[..|cs| - 1];
      }
      assert [cs[0]] + t == cs;
    }
  }

  /** The rows in ascending order, where the source accepts their order. */
  function Ordered(rows: seq<Candle>): seq<Candle> {
    if Increasing(rows) then rows else Reversed(rows)
  }

  /** What the checks on ascending candles establish. */
  ghost predicate Sound(s: Series, ordered: seq<Candle>, now: int, interval: int, freshness: int, minHistory: int) {
    && s.intervalSeconds == interval / SECOND > 0
    && ordered != []
    && s.candles == (if now < ordered[|ordered| - 1].timestamp + interval then ordered[..|ordered| - 1] else ordered)
    && s.candles != [] && |s.candles| >= minHistory
    && NoGap(s.candles, interval) && Aligned(s.candles, s.intervalSeconds)
    && (forall i :: 0 <= i < |s.candles| ==> s.candles[i].timestamp + interval <= now)
    && s.latestAt == s.candles[|s.candles| - 1].timestamp + interval
    && now - freshness <= s.latestAt <= now
  }

  lemma PrefixKeeps(cs: seq<Candle>, n: nat, interval: int, intervalSeconds: int)
    requires n <= |cs| && NoGap(cs, interval) && intervalSeconds > 0 && Aligned(cs, intervalSeconds)
    ensures NoGap(cs[..n], interval) && Aligned(cs[..n], intervalSeconds)
  {
    forall i | 0 < i < n ensures Follows(cs[..n], i, interval) {
      assert Follows(cs, i, interval);
    }
  }

  lemma {:induction false} AllComplete(cs: seq<Candle>, interval: int, now: int)
    ensures forall i :: 0 <= i < |Complete(cs, interval, now)| ==> Complete(cs, interval, now)[i].timestamp + interval <= now
  {
    if cs != [] {
      AllComplete(cs[1..], interval, now);
    }
  }

  lemma CheckedIsSound(
    ordered: seq<Candle>, now: int, interval: int, freshness: int, minHistory: int, flags: seq<Flag>)
    requires interval > 0 && ordered != []
    requires Checked(ordered, now, interval, freshness, minHistory, flags).Ok?
    ensures Sound(Checked(ordered, now, interval, freshness, minHistory, flags).value,
      ordered, now, interval, freshness, minHistory)
  {
    hide FirstMisaligned, Complete, NoGap, Aligned;
    NoIntervalNoSeries(ordered);
    CompleteIsPrefix(ordered, interval, now);
    AllComplete(ordered, interval, now);
    AlignedIff(ordered, interval / SECOND);
    PrefixKeeps(ordered, |ordered| - 1, interval, interval / SECOND);
  }

  /**
   * An accepted series is the rows in ascending order but for at most the newest, which is dropped exactly when
   * it is still running; it is complete, aligned, without gaps, long enough and fresh.
   */
  lemma AcceptedSeries(
    source: string, rows: seq<Candle>, now: int, interval: int, freshness: int, minHistory: int)
    requires Normalize(source, rows, now, interval, freshness, minHistory).Ok?
    ensures Increasing(Ordered(rows)) && (source != "coinbase" ==> Ordered(rows) == rows)
    ensures forall i :: 0 <= i < |rows| ==> rows[i].close > 0.0
    ensures Sound(Normalize(source, rows, now, interval, freshness, minHistory).value,
      Ordered(rows), now, interval, freshness, minHistory)
  {
    hide Checked, Sound, Distinct;
    if Increasing(rows) {
      CheckedIsSound(rows, now, interval, freshness, minHistory, []);
    } else {
      CheckedIsSound(Reversed(rows), now, interval, freshness, minHistory, [SourceDescendingReversed]);
    }
  }

  /** The flags say whether the rows were turned round and whether a running candle was dropped. */
  lemma FlagsMeaning(
    source: string, rows: seq<Candle>, now: int, interval: int, freshness: int, minHistory: int)
    requires Normalize(source, rows, now, interval, freshness, minHistory).Ok?
    ensures var s := Normalize(source, rows, now, interval, freshness, minHistory).value;
      && (SourceDescendingReversed in s.flags <==> !Increasing(rows))
      && (IncompleteCurrentCandleRemoved in s.flags <==> |s.candles| < |rows|)
  {
    hide FirstMisaligned, NoGap, Increasing, Distinct, Strip;
    var ordered := Ordered(rows);
    CompleteWithin(ordered, interval, now);
  }

  lemma {:induction false} CompleteWithin(cs: seq<Candle>, interval: int, now: int)
    ensures |Complete(cs, interval, now)| <= |cs|
  {
    if cs != [] {
      CompleteWithin(cs[1..], interval, now);
    }
  }

  /** How many of the ordered candles are over: all, or all but a running newest one. */
  function Finished(ordered: seq<Candle>, now: int, interval: int): int {
    if ordered != [] && now < ordered[|ordered| - 1].timestamp + interval then |ordered| - 1 else |ordered|
  }

  /** What makes candles in ascending order an acceptable series. */
  ghost predicate Acceptable(ordered: seq<Candle>, now: int, interval: int, freshness: int, minHistory: int) {
    var n := Finished(ordered, now, interval);
    && interval >= SECOND
    && Aligned(ordered, interval / SECOND)
    && NoGap(ordered, interval)
    && (forall i :: 0 <= i < |ordered| ==> ordered[i].timestamp <= now)
    && n >= 1 && n >= minHistory
    && now - (ordered[n - 1].timestamp + interval) <= freshness
  }

  lemma CheckedIff(
    ordered: seq<Candle>, now: int, interval: int, freshness: int, minHistory: int, flags: seq<Flag>)
    requires interval > 0 && ordered != []
    ensures Checked(ordered, now, interval, freshness, minHistory, flags).Ok?
      <==> Acceptable(ordered, now, interval, freshness, minHistory)
  {
    hide FirstMisaligned, Complete, NoGap, Aligned;
    NoIntervalNoSeries(ordered);
    if interval >= SECOND {
      AlignedIff(ordered, interval / SECOND);
    }
    if NoGap(ordered, interval) && forall i :: 0 <= i < |ordered| ==> ordered[i].timestamp <= now {
      CompleteIsPrefix(ordered, interval, now);
    }
  }

  /** Rows are accepted exactly when source, interval, closes and order are good and the ordered candles are acceptable. */
  lemma AcceptedIff(
    source: string, rows: seq<Candle>, now: int, interval: int, freshness: int, minHistory: int)
    ensures Normalize(source, rows, now, interval, freshness, minHistory).Ok? <==>
      && Strip(source) != "" && interval > 0 && rows != []
      && (forall i :: 0 <= i < |rows| ==> rows[i].close > 0.0)
      && (Increasing(rows) || (source == "coinbase" && Increasing(Reversed(rows))))
      && Acceptable(if Increasing(rows) then rows else Reversed(rows), now, interval, freshness, minHistory)
  {
    hide Checked, Acceptable, Strip, Reversed;
    if interval > 0 && rows != [] {
      assert Reversed(rows) != [] by { ReversedTwice(rows); }
      CheckedIff(rows, now, interval, freshness, minHistory, []);
      CheckedIff(Reversed(rows), now, interval, freshness, minHistory, [SourceDescendingReversed]);
      ReversedDistinct(rows);
    }
  }

  lemma ReversedDistinct(rows: seq<Candle>)
    ensures Increasing(Reversed(rows)) ==> Distinct(rows)
  {
    if Increasing(Reversed(rows)) {
      ReversedKeeps(Reversed(rows));
      ReversedTwice(rows);
    }
  }

  ghost predicate SameButFlags(a: Result<Series, QualityError>, b: Result<Series, QualityError>) {
    && (a.Ok? <==> b.Ok?)
    && (a.Ok? ==> a.value.(flags := b.value.flags) == b.value)
    && (a.Err? ==> a.error == b.error)
  }

  lemma ReversedKeeps(cs: seq<Candle>)
    requires Distinct(cs)
    ensures Distinct(Reversed(cs))
  {
    forall i, j | 0 <= i < j < |cs| ensures Reversed(cs)[i].timestamp != Reversed(cs)[j].timestamp {
      assert cs[|cs| - 1 - j].timestamp != cs[|cs| - 1 - i].timestamp;
    }
  }

  lemma ReversedTwice(cs: seq<Candle>)
    ensures Reversed(Reversed(cs)) == cs
  {
  }

  lemma ReversedCloses(cs: seq<Candle>)
    requires BadClose(cs)
    ensures BadClose(Reversed(cs))
  {
    var i :| 0 <= i < |cs| && cs[i].close <= 0.0;
    assert Reversed(cs)[|cs| - 1 - i] == cs[i];
  }

  lemma FlagsOnly(ordered: seq<Candle>, now: int, interval: int, freshness: int, minHistory: int, f: seq<Flag>, g: seq<Flag>)
    requires interval > 0
    ensures SameButFlags(Checked(ordered, now, interval, freshness, minHistory, f),
      Checked(ordered, now, interval, freshness, minHistory, g))
  {
  }

  lemma ReversedEnds(cs: seq<Candle>)
    requires Increasing(cs) && |cs| > 1
    ensures Reversed(cs)[0].timestamp > Reversed(cs)[|cs| - 1].timestamp
  {
  }

  /** Increasing in both directions only when there is nothing to order. */
  lemma BothWays(cs: seq<Candle>)
    requires Increasing(cs) && Increasing(Reversed(cs))
    ensures Reversed(cs) == cs
  {
    if |cs| > 1 {
      ReversedEnds(cs);
    }
  }

  /** Coinbase rows give the same series, or the same error, in either order. */
  lemma CoinbaseOrderIrrelevant(rows: seq<Candle>, now: int, interval: int, freshness: int, minHistory: int)
    ensures SameButFlags(Normalize("coinbase", Reversed(rows), now, interval, freshness, minHistory),
      Normalize("coinbase", rows, now, interval, freshness, minHistory))
  {
    hide Checked, Strip, Increasing, Distinct, Reversed, BadClose;
    var r := Reversed(rows);
    ReversedTwice(rows);
    if Distinct(rows) { ReversedKeeps(rows); }
    if Distinct(r) { ReversedKeeps(r); }
    if BadClose(rows) { ReversedCloses(rows); }
    if BadClose(r) { ReversedCloses(r); }
    if interval > 0 {
      FlagsOnly(rows, now, interval, freshness, minHistory, [], [SourceDescendingReversed]);
      FlagsOnly(rows, now, interval, freshness, minHistory, [SourceDescendingReversed], []);
      FlagsOnly(Reversed(rows), now, interval, freshness, minHistory, [], [SourceDescendingReversed]);
      FlagsOnly(Reversed(rows), now, interval, freshness, minHistory, [SourceDescendingReversed], []);
    }
    if Increasing(rows) && Increasing(Reversed(rows)) {
      BothWays(rows);
    }
  }

  // ---- Close ratios ----

  function Ratio(current: real, previous: real): real
    requires previous > 0.0
  {
    current / previous
  }

  /** The product of the close ratios, whose logarithms are the series' returns. */
  function RatioProduct(cs: seq<Candle>): real
    requires forall i :: 0 <= i < |cs| ==> cs[i].close > 0.0
  {
    if |cs| < 2 then 1.0
    else Times(RatioProduct(cs[..|cs| - 1]), Ratio(cs[|cs| - 1].close, cs[|cs| - 2].close))
  }

  /** The ratios of any stretch telescope: the returns add up to the whole move. */
  lemma {:induction false} RatiosTelescope(cs: seq<Candle>)
    requires cs != [] && forall i :: 0 <= i < |cs| ==> cs[i].close > 0.0
    ensures RatioProduct(cs) == Ratio(cs[|cs| - 1].close, cs[0].close)
  {
    hide Times, Ratio;
    if |cs| >= 2 {
      var front := cs[..|cs| - 1];
      RatiosTelescope(front);
      assert front[|front| - 1] == cs[|cs| - 2] && front[0] == cs[0];
      Chain(cs[0].close, cs[|cs| - 2].close, cs[|cs| - 1].close);
    } else {
      NoMove(cs[0].close);
    }
  }

  lemma NoMove(a: real)
    requires a > 0.0
    ensures Ratio(a, a) == 1.0
  {
  }

  lemma Chain(a: real, b: real, c: real)
    requires a > 0.0 && b > 0.0
    ensures Times(Ratio(b, a), Ratio(c, b)) == Ratio(c, a)
  {
    var x, y := Ratio(b, a), Ratio(c, b);
    assert x * a == b && y * b == c;
    assert (x * y) * a == c;
  }

  // ---- The horizon ----

  datatype HorizonError = UnsupportedHorizon

  /** `int(timedelta.total_seconds())`: towards zero. */
  function WholeSeconds(d: int): int {
    if d >= 0 then d / SECOND else -((-d) / SECOND)
  }

  function Horizon(expiry: int, series: Series): Result<int, HorizonError>
    requires series.intervalSeconds > 0
  {
    var seconds := WholeSeconds(expiry - series.latestAt);
    if seconds <= 0 || seconds % series.intervalSeconds != 0 || seconds / series.intervalSeconds > MAX_HORIZON then
      Err(UnsupportedHorizon)
    else Ok(seconds / series.intervalSeconds)
  }

  lemma Multiple(h: nat, n: nat)
    requires n > 0
    ensures (h * n) % n == 0 && (h * n) / n == h
  {
    assert n * (h + 1) == n * h + n;
    TimesMono(n, 0, h);
    QuotientUnique(n * h, n, h);
    assert n * h == n * ((n * h) / n) + (n * h) % n;
  }

  /** Every interval-aligned later expiry within the maximum is accepted, with the horizon that leads to it. */
  lemma AlignedExpiryAccepted(series: Series, h: int)
    requires series.intervalSeconds > 0 && 1 <= h <= MAX_HORIZON
    ensures Horizon(series.latestAt + h * series.intervalSeconds * SECOND, series) == Ok(h)
  {
    var seconds := h * series.intervalSeconds;
    assert seconds > 0;
    Multiple(h, series.intervalSeconds);
    assert WholeSeconds(seconds * SECOND) == seconds;
  }

  /**
   * An accepted horizon is between 1 and the maximum, and leads exactly to the expiry if and only if the expiry
   * is a whole number of seconds away: a fraction of a second is cut off and the expiry still accepted.
   */
  lemma HorizonExactIff(expiry: int, series: Series)
    requires series.intervalSeconds > 0 && Horizon(expiry, series).Ok?
    ensures var h := Horizon(expiry, series).value;
      && 1 <= h <= MAX_HORIZON
      && 0 <= expiry - (series.latestAt + h * series.intervalSeconds * SECOND) < SECOND
      && (series.latestAt + h * series.intervalSeconds * SECOND == expiry <==> (expiry - series.latestAt) % SECOND == 0)
  {
    var n, seconds := series.intervalSeconds, WholeSeconds(expiry - series.latestAt);
    var h := seconds / n;
    assert seconds == n * h + seconds % n;
    assert h * n == seconds;
    Division.Quotient(seconds, n);
    assert h == 0 ==> h * n == 0;
  }

  /** Two candles already force a whole-second interval. */
  lemma IntervalIsWhole(
    source: string, rows: seq<Candle>, now: int, interval: int, freshness: int, minHistory: int)
    requires Normalize(source, rows, now, interval, freshness, minHistory).Ok?
    ensures var s := Normalize(source, rows, now, interval, freshness, minHistory).value;
      |s.candles| >= 2 ==> interval == s.intervalSeconds * SECOND && s.latestAt % SECOND == 0
  {
    hide Normalize, Ordered, Increasing;
    AcceptedSeries(source, rows, now, interval, freshness, minHistory);
    var s := Normalize(source, rows, now, interval, freshness, minHistory).value;
    var n := |s.candles|;
    if n >= 2 {
      assert s.candles[0].timestamp % SECOND == 0 && s.candles[1].timestamp % SECOND == 0;
      assert s.candles[n - 1].timestamp % SECOND == 0;
      assert Follows(s.candles, 1, interval);
      WholeDifference(s.candles[0].timestamp, s.candles[1].timestamp);
      WholeSum(s.candles[n - 1].timestamp, interval);
    }
  }

  lemma WholeDifference(a: int, b: int)
    requires a % SECOND == 0 && b % SECOND == 0
    ensures (b - a) % SECOND == 0 && b - a == (b - a) / SECOND * SECOND
  {
  }

  lemma WholeSum(a: int, b: int)
    requires a % SECOND == 0 && b % SECOND == 0
    ensures (a + b) % SECOND == 0
  {
  }

  /**
   * The parser yields expiries on whole seconds. For those, on an accepted series of two or more candles, the
   * horizon is h exactly when the expiry is h intervals after the last candle closed, for h up to the maximum.
   */
  lemma AcceptedHorizon(
    source: string, rows: seq<Candle>, now: int, interval: int, freshness: int, minHistory: int, expiry: int, h: int)
    requires var r := Normalize(source, rows, now, interval, freshness, minHistory);
      r.Ok? && |r.value.candles| >= 2
    requires expiry % SECOND == 0
    ensures var s := Normalize(source, rows, now, interval, freshness, minHistory).value;
      && s.intervalSeconds > 0
      && (Horizon(expiry, s) == Ok(h) <==> 1 <= h <= 744 && expiry == s.latestAt + h * interval)
  {
    hide Normalize, Horizon, Ordered, Increasing;
    AcceptedSeries(source, rows, now, interval, freshness, minHistory);
    IntervalIsWhole(source, rows, now, interval, freshness, minHistory);
    WholeHorizon(Normalize(source, rows, now, interval, freshness, minHistory).value, interval, expiry, h);
  }

  lemma WholeHorizon(s: Series, interval: int, expiry: int, h: int)
    requires s.intervalSeconds > 0 && interval == s.intervalSeconds * SECOND
    requires s.latestAt % SECOND == 0 && expiry % SECOND == 0
    ensures Horizon(expiry, s) == Ok(h) <==> 1 <= h <= 744 && expiry == s.latestAt + h * interval
  {
    hide Horizon;
    Regroup(h, s.intervalSeconds, SECOND);
    if 1 <= h <= 744 && expiry == s.latestAt + h * interval {
      AlignedExpiryAccepted(s, h);
    }
    if Horizon(expiry, s) == Ok(h) {
      WholeDifference(s.latestAt, expiry);
      HorizonExactIff(expiry, s);
    }
  }

  lemma Regroup(a: int, b: int, c: int)
    ensures a * (b * c) == a * b * c
  {
  }
}
