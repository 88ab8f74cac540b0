/**
 * What the weight gate says about the forecasts it weighs: on the samples it judged, the pooled forecast itself
 * scores no worse than the blend the gate computed from the per-model scores.
 */
module PooledForecast {
  import opened Outcomes
  import opened Sums
  import opened Products
  import opened Rounding
  import opened Buckets
  import opened WeatherProbability
  import opened ModelWeights

  /** A settled signal: the ensemble of its event, the label it was on, and whether that label won. */
  datatype Event = Event(members: seq<Member>, buckets: seq<Bucket>, mode: Mode, title: string, won: bool)

  /** What the worker records for one model of the event. */
  function AloneSample(e: Event, model: string): Sample {
    Sample(RecordedAlone(e.members, e.buckets, e.mode, e.title)(model), e.won)
  }

  function AloneSamples(events: seq<Event>, model: string): (r: seq<Sample>)
    ensures |r| == |events|
  {
    if events == [] then [] else [AloneSample(events[0], model)] + AloneSamples(events[1..], model)
  }

  /** The forecast the worker acts on. */
  function PooledSample(e: Event, weights: map<string, real>): Sample {
    Sample(ProbabilityOf(e.members, e.buckets, e.mode, weights, e.title), e.won)
  }

  function PooledSamples(events: seq<Event>, weights: map<string, real>): (r: seq<Sample>)
    ensures |r| == |events|
  {
    if events == [] then [] else [PooledSample(events[0], weights)] + PooledSamples(events[1..], weights)
  }

  // ---- Jensen's inequality for squares ----

  function SquaredMiss(v: string -> real, o: real): string -> real {
    m => Square(v(m) - o)
  }

  /** The tangent of the square at mu lies below it. */
  lemma Tangent(v: real, mu: real, o: real)
    ensures Square(v - o) >= Square(mu - o) - Times(2.0 * (mu - o), mu) + Times(2.0 * (mu - o), v)
  {
    SquareSign(v - mu);
    assert Times(v - mu, v - mu) == Square(v - o) - (Square(mu - o) - Times(2.0 * (mu - o), mu) + Times(2.0 * (mu - o), v));
  }

  lemma {:induction false} Jensen(models: seq<string>, w: string -> real, v: string -> real, o: real)
    requires forall m :: m in models ==> w(m) >= 0.0
    requires SumOf(models, w) == 1.0
    ensures Square(SumOf(models, Weighted(w, v)) - o) <= SumOf(models, Weighted(w, SquaredMiss(v, o)))
  {
    var mu := SumOf(models, Weighted(w, v));
    var c, d := Square(mu - o) - Times(2.0 * (mu - o), mu), 2.0 * (mu - o);
    var line := m => c * w(m) + d * Weighted(w, v)(m);
    hide Square, SumOf, Times;
    forall m | m in models ensures line(m) <= Weighted(w, SquaredMiss(v, o))(m) {
      TangentWeighted(w(m), v(m), mu, o);
    }
    SumMono(models, line, Weighted(w, SquaredMiss(v, o)));
    SumLinear(models, line, c, w, d, Weighted(w, v));
    assert Times(d, mu) == d * mu by { TimesIs(d, mu); }
  }

  lemma TimesIs(a: real, b: real)
    ensures Times(a, b) == a * b
  {
  }

  lemma TangentWeighted(w: real, v: real, mu: real, o: real)
    requires w >= 0.0
    ensures (Square(mu - o) - Times(2.0 * (mu - o), mu)) * w + 2.0 * (mu - o) * Times(w, v) <= Times(w, Square(v - o))
  {
    Tangent(v, mu, o);
    var c, d := Square(mu - o) - Times(2.0 * (mu - o), mu), 2.0 * (mu - o);
    Mono(w, c + Times(d, v), Square(v - o));
    Distribute(c, Times(d, v), w);
    assert Times(w, Times(d, v)) == d * Times(w, v);
  }

  // ---- From one event to all of them ----

  function Names(entries: seq<Entry>): (r: seq<string>)
    ensures |r| == |entries| && forall i :: 0 <= i < |r| ==> r[i] == entries[i].model
  {
    if entries == [] then [] else [entries[0].model] + Names(entries[1..])
  }

  /** The loaded weights are those the gate returned. */
  ghost predicate Loaded(entries: seq<Entry>, ws: seq<real>, weights: map<string, real>) {
    |ws| == |entries| &&
    forall i :: 0 <= i < |entries| ==> entries[i].model in weights && weights[entries[i].model] == ws[i]
  }

  /** The event's ensemble has valid members of exactly the weighed models, each in some bucket. */
  ghost predicate Covered(entries: seq<Entry>, e: Event) {
    && (forall m :: m in Models(e.members) <==> m in Names(entries))
    && AllMapped(e.members, e.buckets, e.mode)
  }

  lemma {:induction false} LoadedTotal(entries: seq<Entry>, ws: seq<real>, weights: map<string, real>)
    requires Loaded(entries, ws, weights)
    ensures SumOf(Names(entries), WeightOf(weights)) == Total(ws)
  {
    if entries != [] {
      LoadedTotal(entries[1..], ws[1..], weights);
      assert Names(entries)[1..] == Names(entries[1..]);
    }
  }

  /** With loaded weights that sum to one, the pooled probability is the weighted sum of the recorded ones. */
  lemma PooledIsBlend(entries: seq<Entry>, ws: seq<real>, weights: map<string, real>, e: Event)
    requires WellFormed(entries) && entries != [] && Loaded(entries, ws, weights) && Total(ws) == 1.0
    requires Covered(entries, e)
    ensures PooledSample(e, weights).probability
      == SumOf(Names(entries), Weighted(WeightOf(weights), RecordedAlone(e.members, e.buckets, e.mode, e.title)))
  {
    hide Models, AllMapped, SumOf, Times, ProbabilityOf, Rows;
    var models, names := Models(e.members), Names(entries);
    LoadedTotal(entries, ws, weights);
    SumReordered(models, names, WeightOf(weights));
    assert RawTotal(e.members, weights) == 1.0;
    RecordedIsMixture(e.members, e.buckets, e.mode, weights, e.title);
    var alone := RecordedAlone(e.members, e.buckets, e.mode, e.title);
    var f := Weighted(model => Normal(e.members, weights, model), alone);
    var g := Weighted(WeightOf(weights), alone);
    forall m | m in models ensures f(m) == g(m) {
      UnitNormal(e.members, weights, m);
    }
    SumCongruent(models, f, g);
    SumReordered(models, names, g);
  }

  lemma UnitNormal(members: seq<Member>, weights: map<string, real>, m: string)
    requires RawTotal(members, weights) == 1.0
    ensures Normal(members, weights, m) == WeightOf(weights)(m)
  {
  }

  function MissTotal(events: seq<Event>): string -> real {
    m => SumOf(AloneSamples(events, m), Miss)
  }

  /** On one event the pool misses by no more than the weighted misses of the models. */
  lemma PoolMissesOnce(entries: seq<Entry>, ws: seq<real>, weights: map<string, real>, e: Event)
    requires WellFormed(entries) && entries != [] && Loaded(entries, ws, weights) && Total(ws) == 1.0
    requires forall w :: w in ws ==> w >= 0.0
    requires Covered(entries, e)
    ensures Miss(PooledSample(e, weights))
      <= SumOf(Names(entries), Weighted(WeightOf(weights),
        SquaredMiss(RecordedAlone(e.members, e.buckets, e.mode, e.title), Truth(e.won))))
  {
    hide RecordedAlone, ProbabilityOf, Covered, Times, Square, SumOf, WellFormed;
    var names, w := Names(entries), WeightOf(weights);
    PooledIsBlend(entries, ws, weights, e);
    LoadedTotal(entries, ws, weights);
    forall m | m in names ensures w(m) >= 0.0 {
      var i :| 0 <= i < |names| && names[i] == m;
      assert weights[entries[i].model] == ws[i] && ws[i] in ws;
    }
    Jensen(names, w, RecordedAlone(e.members, e.buckets, e.mode, e.title), Truth(e.won));
  }

  lemma MissTotalStep(names: seq<string>, w: string -> real, events: seq<Event>)
    requires events != []
    ensures var e := events[0];
      SumOf(names, Weighted(w, MissTotal(events)))
        == SumOf(names, Weighted(w, SquaredMiss(RecordedAlone(e.members, e.buckets, e.mode, e.title), Truth(e.won))))
          + SumOf(names, Weighted(w, MissTotal(events[1..])))
  {
    hide RecordedAlone, Times, Square, SumOf;
    var e := events[0];
    var alone := RecordedAlone(e.members, e.buckets, e.mode, e.title);
    var f, head, tail := Weighted(w, MissTotal(events)), Weighted(w, SquaredMiss(alone, Truth(e.won))),
      Weighted(w, MissTotal(events[1..]));
    forall m ensures f(m) == 1.0 * head(m) + 1.0 * tail(m) {
      MissSplits(events, m);
      Distribute(Miss(AloneSample(e, m)), MissTotal(events[1..])(m), w(m));
    }
    SumLinear(names, f, 1.0, head, 1.0, tail);
  }

  lemma MissSplits(events: seq<Event>, m: string)
    requires events != []
    ensures MissTotal(events)(m) == Miss(AloneSample(events[0], m)) + MissTotal(events[1..])(m)
  {
    hide AloneSample, Miss;
  }

  /** On all the events together, the pool misses by no more than the weighted misses of the models. */
  lemma {:induction false} PoolMisses(
    entries: seq<Entry>, ws: seq<real>, weights: map<string, real>, events: seq<Event>)
    requires WellFormed(entries) && entries != [] && Loaded(entries, ws, weights) && Total(ws) == 1.0
    requires forall w :: w in ws ==> w >= 0.0
    requires forall e :: e in events ==> Covered(entries, e)
    ensures SumOf(PooledSamples(events, weights), Miss)
      <= SumOf(Names(entries), Weighted(WeightOf(weights), MissTotal(events)))
  {
    hide RecordedAlone, Covered, Times, WellFormed, Loaded, Miss, PooledSample;
    if events == [] {
      NoMisses(Names(entries), WeightOf(weights));
    } else {
      PoolMisses(entries, ws, weights, events[1..]);
      PoolMissesOnce(entries, ws, weights, events[0]);
      MissTotalStep(Names(entries), WeightOf(weights), events);
    }
  }

  lemma NoMisses(names: seq<string>, w: string -> real)
    ensures SumOf(names, Weighted(w, MissTotal([]))) == 0.0
  {
    var f := Weighted(w, MissTotal([]));
    forall m ensures f(m) == 0.0 {
      Units(w(m));
    }
    SumConstant(names, f, 0.0);
  }

  /** The gate judged exactly these events: the samples of each model are what was recorded for it. */
  ghost predicate Judged(entries: seq<Entry>, events: seq<Event>) {
    events != [] && forall i :: 0 <= i < |entries| ==> entries[i].samples == AloneSamples(events, entries[i].model)
  }

  lemma {:induction false} BlendScore(entries: seq<Entry>, ws: seq<real>, weights: map<string, real>, events: seq<Event>)
    requires WellFormed(entries) && Judged(entries, events) && Loaded(entries, ws, weights)
    ensures SumOf(Names(entries), Weighted(WeightOf(weights), MissTotal(events)))
      == Times(Dot(Scores(entries), ws), |events| as real)
  {
    hide Times, AloneSamples, SumOf, Miss;
    var f, n := Weighted(WeightOf(weights), MissTotal(events)), |events| as real;
    if entries == [] {
      Units(n);
      NoSum(f);
    } else {
      var head := entries[0];
      BlendScore(entries[1..], ws[1..], weights, events);
      assert Names(entries) == [head.model] + Names(entries[1..]);
      assert Scores(entries) == [Brier(head.samples)] + Scores(entries[1..]);
      SumFirst(head.model, Names(entries[1..]), f);
      ScoredShare(ws[0], MissTotal(events)(head.model), n);
      Distribute(Times(Brier(head.samples), ws[0]), Dot(Scores(entries[1..]), ws[1..]), n);
    }
  }

  lemma NoSum(f: string -> real)
    ensures SumOf([], f) == 0.0
  {
  }

  lemma SumFirst(x: string, rest: seq<string>, f: string -> real)
    ensures SumOf([x] + rest, f) == f(x) + SumOf(rest, f)
  {
    assert ([x] + rest)[1..] == rest;
  }

  /** A weighted total of n misses is n times the weighted average miss. */
  lemma ScoredShare(w: real, total: real, n: real)
    requires n != 0.0
    ensures Times(w, total) == Times(Times(total / n, w), n)
  {
    hide Times;
    Quotient(total, n);
    Associate(w, total / n, n);
    TimesSwap(w, total / n);
  }

  lemma TimesSwap(a: real, b: real)
    ensures Times(a, b) == Times(b, a)
  {
  }

  /** Probability-vector weights: the pool's Brier score is at most the blend score the gate computes. */
  lemma PoolWithinBlend(entries: seq<Entry>, events: seq<Event>, ws: seq<real>, weights: map<string, real>)
    requires WellFormed(entries) && entries != [] && Judged(entries, events) && Loaded(entries, ws, weights)
    requires Total(ws) == 1.0 && forall w :: w in ws ==> w >= 0.0
    requires forall e :: e in events ==> Covered(entries, e)
    ensures Brier(PooledSamples(events, weights)) <= Dot(Scores(entries), ws)
  {
    hide Covered, Times, WellFormed, SumOf, Dot, Miss, PooledSamples, Names;
    var n := |events| as real;
    PoolMisses(entries, ws, weights, events);
    BlendScore(entries, ws, weights, events);
    Quotient(SumOf(PooledSamples(events, weights), Miss), n);
    Cancel(Brier(PooledSamples(events, weights)), Dot(Scores(entries), ws), n);
  }

  /**
   * The gate binds the pool: on the events it judged, weights it promotes give a pooled forecast whose Brier score
   * is better than the models' average score by the required share, and zero when some model was perfect.
   */
  lemma GateBindsThePool(
    entries: seq<Entry>, events: seq<Event>, weights: map<string, real>, minSamples: int, minImprovement: real)
    requires WellFormed(entries) && Judged(entries, events)
    requires ComputeWeights(entries, minSamples, minImprovement).Some?
    requires Loaded(entries, ComputeWeights(entries, minSamples, minImprovement).value, weights)
    requires forall e :: e in events ==> Covered(entries, e)
    ensures Brier(PooledSamples(events, weights))
      <= if FirstZero(Scores(entries)).Some? then 0.0 else Times(1.0 - minImprovement, Mean(Scores(entries)))
  {
    hide Covered, Times, WellFormed, Loaded, Brier, Dot, Mean;
    NonEmptyEvents(entries, events);
    PromotedWeights(entries, minSamples, minImprovement);
    PromotedBlend(entries, minSamples, minImprovement);
    PoolWithinBlend(entries, events, ComputeWeights(entries, minSamples, minImprovement).value, weights);
  }

  /** What the gate promised about the blend score. */
  lemma PromotedBlend(entries: seq<Entry>, minSamples: int, minImprovement: real)
    requires WellFormed(entries) && ComputeWeights(entries, minSamples, minImprovement).Some?
    ensures Dot(Scores(entries), ComputeWeights(entries, minSamples, minImprovement).value)
      <= if FirstZero(Scores(entries)).Some? then 0.0 else Times(1.0 - minImprovement, Mean(Scores(entries)))
  {
    hide Times, Dot, Mean, WellFormed;
    if FirstZero(Scores(entries)).Some? {
      PerfectBlend(Scores(entries), FirstZero(Scores(entries)).value);
    } else {
      Distribute(1.0, -minImprovement, Mean(Scores(entries)));
      TimesNegative(minImprovement, Mean(Scores(entries)));
      Units(Mean(Scores(entries)));
    }
  }

  lemma NonEmptyEvents(entries: seq<Entry>, events: seq<Event>)
    requires Judged(entries, events)
    ensures events != []
  {
  }

  lemma {:induction false} PerfectBlend(scores: seq<real>, k: nat)
    requires k < |scores| && scores[k] == 0.0
    ensures Dot(scores, OneHot(|scores|, k)) == 0.0
  {
    DotOneHot(scores, OneHot(|scores|, k));
  }

  lemma {:induction false} DotOneHot(scores: seq<real>, ws: seq<real>)
    requires |ws| == |scores| && forall i :: 0 <= i < |ws| ==> scores[i] == 0.0 || ws[i] == 0.0
    ensures Dot(scores, ws) == 0.0
  {
    if scores != [] {
      DotOneHot(scores[1..], ws[1..]);
      Units(scores[0]);
      Units(ws[0]);
    }
  }

  /** The hypotheses of the theorem meet: one event of one model, with no improvement asked, is promoted. */
  lemma GateBindsExample() returns (entries: seq<Entry>, events: seq<Event>, weights: map<string, real>)
    ensures WellFormed(entries) && Judged(entries, events)
    ensures ComputeWeights(entries, 1, 0.0).Some?
    ensures Loaded(entries, ComputeWeights(entries, 1, 0.0).value, weights)
    ensures forall e :: e in events ==> Covered(entries, e)
  {
    hide AloneSamples, ProbabilityOf, ComputeWeights, Models, AllMapped, Scores, Names, LabelOf;
    var m := Member("a", Some(20.0), false, 0.0);
    var whole := [Bucket("any", None, None, true, true)];
    var e := Event([m], whole, HalfUp, "any", true);
    events := [e];
    entries := [Entry("a", AloneSamples(events, "a"))];
    OneMemberCovered(m, whole, HalfUp);
    assert Names(entries) == ["a"];
    SinglePromoted(entries);
    weights := map["a" := ComputeWeights(entries, 1, 0.0).value[0]];
  }

  lemma OneMemberCovered(m: Member, whole: seq<Bucket>, mode: Mode)
    requires m.Valid() && |whole| == 1 && whole[0].lower.None? && whole[0].upper.None?
    ensures Models([m]) == [m.model] && AllMapped([m], whole, mode)
  {
    assert [m][..0] == [];
    assert Models([]) == [];
    assert whole[0].Contains(RoundWhole(m.Corrected(), mode) as real);
  }

  lemma SinglePromoted(entries: seq<Entry>)
    requires |entries| == 1 && WellFormed(entries)
    ensures ComputeWeights(entries, 1, 0.0).Some?
  {
    hide Times, Brier, Mean, Dot, InverseWeights;
    if FirstZero(Scores(entries)).None? {
      ScoresPositive(entries);
      BlendIsHarmonicMean(Scores(entries));
      Units(Mean(Scores(entries)));
      assert forall b :: b in Scores(entries) ==> b == Scores(entries)[0];
    }
  }
}
