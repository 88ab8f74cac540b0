/** Inverse-Brier model weights and the gate that promotes them (app/services/model_weights.py). */
module ModelWeights {
  import opened Outcomes
  import opened Sums
  import opened Products

  datatype Sample = Sample(probability: real, won: bool)

  /** The samples of one model; a dictionary of them is a sequence with distinct models. */
  datatype Entry = Entry(model: string, samples: seq<Sample>)

  /** What `extract_samples` hands on: distinct models, each with at least one sample. */
  predicate WellFormed(entries: seq<Entry>) {
    && (forall i, j :: 0 <= i < j < |entries| ==> entries[i].model != entries[j].model)
    && (forall i :: 0 <= i < |entries| ==> entries[i].samples != [])
  }

  function Square(x: real): (r: real)
    ensures r >= 0.0 && (r == 0.0 <==> x == 0.0)
  {
    SquareSign(x);
    Times(x, x)
  }

  function Truth(won: bool): real { if won then 1.0 else 0.0 }

  function Miss(s: Sample): (r: real)
    ensures r >= 0.0
  {
    Square(s.probability - Truth(s.won))
  }

  function Brier(samples: seq<Sample>): (r: real)
    requires samples != []
    ensures r >= 0.0
  {
    SumNonNegative(samples, Miss);
    SumOf(samples, Miss) / |samples| as real
  }

  /** `model_brier`: the score of each model, in the order of the entries. */
  function Scores(entries: seq<Entry>): (r: seq<real>)
    requires WellFormed(entries)
    ensures |r| == |entries|
    ensures forall i :: 0 <= i < |r| ==> r[i] == Brier(entries[i].samples)
  {
    if entries == [] then [] else [Brier(entries[0].samples)] + Scores(entries[1..])
  }

  function Identity(x: real): real { x }

  function Total(xs: seq<real>): real { SumOf(xs, Identity) }

  function Mean(xs: seq<real>): real
    requires xs != []
  {
    Total(xs) / |xs| as real
  }

  function Reciprocal(b: real): real { if b == 0.0 then 0.0 else 1.0 / b }

  /** The sum of inverse scores. */
  function InverseTotal(scores: seq<real>): real { SumOf(scores, Reciprocal) }

  function Share(part: real, total: real): real { if total == 0.0 then 0.0 else part / total }

  function InverseWeights(scores: seq<real>): (r: seq<real>)
    ensures |r| == |scores|
  {
    seq(|scores|, i requires 0 <= i < |scores| =>
      Share(Reciprocal(scores[i]), InverseTotal(scores)))
  }

  function HarmonicMean(scores: seq<real>): real {
    if InverseTotal(scores) == 0.0 then 0.0 else |scores| as real / InverseTotal(scores)
  }

  function Dot(xs: seq<real>, ws: seq<real>): real
    requires |xs| == |ws|
  {
    if xs == [] then 0.0 else Times(xs[0], ws[0]) + Dot(xs[1..], ws[1..])
  }

  function FirstZero(scores: seq<real>): (r: Option<nat>)
    ensures r.Some? ==> r.value < |scores| && scores[r.value] == 0.0
    ensures forall j :: 0 <= j < (if r.Some? then r.value else |scores|) ==> scores[j] != 0.0
  {
    if scores == [] then None
    else if scores[0] == 0.0 then Some(0)
    else
      var rest := FirstZero(scores[1..]);
      if rest.None? then None else Some(rest.value + 1)
  }

  /** All the weight on one model. */
  function OneHot(n: nat, k: nat): (r: seq<real>)
    ensures |r| == n && forall i :: 0 <= i < n ==> r[i] == if i == k then 1.0 else 0.0
  {
    seq(n, i => if i == k then 1.0 else 0.0)
  }

  /** `compute_weights`: None unless the gate promotes a blend; otherwise one weight for each entry. */
  function ComputeWeights(entries: seq<Entry>, minSamples: int, minImprovement: real): (r: Option<seq<real>>)
    requires WellFormed(entries)
    ensures r.Some? ==> |r.value| == |entries|
  {
    if entries == [] || exists i :: 0 <= i < |entries| && |entries[i].samples| < minSamples then None
    else
      var scores := Scores(entries);
      var perfect := FirstZero(scores);
      if perfect.Some? then Some(OneHot(|scores|, perfect.value))
      else
        var weights := InverseWeights(scores);
        if Mean(scores) - Dot(scores, weights) < Times(minImprovement, Mean(scores)) then None else Some(weights)
  }

  // ---- What a score measures ----

  /** A won sample misses by what its probability lacks to one, a lost one by its probability. */
  ghost predicate Certain(s: Sample) {
    if s.won then s.probability == 1.0 else s.probability == 0.0
  }

  lemma MissMeaning(s: Sample)
    ensures s.won ==> Miss(s) == (1.0 - s.probability) * (1.0 - s.probability)
    ensures !s.won ==> Miss(s) == s.probability * s.probability
    ensures Miss(s) == 0.0 <==> Certain(s)
  {
    var d := s.probability - 1.0;
    assert d * d == (-d) * (-d);
  }

  /** The score times the samples is the sum of (1 - p)^2 over the won ones and of p^2 over the lost ones. */
  lemma ScoreMeaning(samples: seq<Sample>)
    requires samples != []
    ensures var won := (s: Sample) => if s.won then (1.0 - s.probability) * (1.0 - s.probability) else 0.0;
      var lost := (s: Sample) => if s.won then 0.0 else s.probability * s.probability;
      Brier(samples) * |samples| as real == SumOf(samples, won) + SumOf(samples, lost)
  {
    hide Miss, SumOf;
    var won := (s: Sample) => if s.won then (1.0 - s.probability) * (1.0 - s.probability) else 0.0;
    var lost := (s: Sample) => if s.won then 0.0 else s.probability * s.probability;
    forall s ensures Miss(s) == 1.0 * won(s) + 1.0 * lost(s) {
      MissMeaning(s);
    }
    SumLinear(samples, Miss, 1.0, won, 1.0, lost);
    ScoreTotal(samples);
  }

  lemma ScoreTotal(samples: seq<Sample>)
    requires samples != []
    ensures Brier(samples) * |samples| as real == SumOf(samples, Miss)
  {
    var total, n := SumOf(samples, Miss), |samples| as real;
    assert (total / n) * n == total;
  }

  lemma ScoreSign(samples: seq<Sample>)
    requires samples != []
    ensures Brier(samples) == 0.0 <==> SumOf(samples, Miss) == 0.0
  {
    hide SumOf;
    ScoreTotal(samples);
    var b, n := Brier(samples), |samples| as real;
    assert b > 0.0 ==> b * n > 0.0;
  }

  /** A score is zero exactly for a model that was right with certainty on every sample. */
  lemma PerfectIff(samples: seq<Sample>)
    requires samples != []
    ensures Brier(samples) == 0.0 <==> forall s :: s in samples ==> Certain(s)
  {
    hide Miss, SumOf, Brier;
    ScoreSign(samples);
    forall s ensures Miss(s) == 0.0 <==> Certain(s) {
      MissMeaning(s);
    }
    SumZero(samples, Miss);
  }

  /** Moving one probability towards its own outcome strictly lowers the score. */
  lemma CloserIsBetter(samples: seq<Sample>, i: nat, q: real)
    requires i < |samples|
    requires var s := samples[i]; if s.won then s.probability < q <= 1.0 else 0.0 <= q < s.probability
    ensures Brier(samples[i := samples[i].(probability := q)]) < Brier(samples)
  {
    hide Miss, SumOf;
    var s, t := samples[i], samples[i].(probability := q);
    var moved := samples[i := t];
    MissMeaning(s);
    MissMeaning(t);
    if s.won {
      SquaresOrdered(1.0 - q, 1.0 - s.probability);
    } else {
      SquaresOrdered(q, s.probability);
    }
    assert Miss(t) < Miss(s);
    SumUpdate(samples, i, t, Miss);
    ScoreTotal(samples);
    ScoreTotal(moved);
    CancelStrict(Brier(moved), Brier(samples), |samples| as real);
  }

  lemma SquaresOrdered(a: real, b: real)
    requires 0.0 <= a < b
    ensures a * a < b * b
  {
    PositiveProduct(b - a, b + a);
    assert Times(b - a, b + a) == b * b - a * a;
  }

  lemma CancelStrict(a: real, b: real, n: real)
    requires n > 0.0 && a * n < b * n
    ensures a < b
  {
    if b <= a {
      Mono(n, b, a);
    }
  }

  /** With enough samples everywhere, the first model that was always right with certainty gets all the weight. */
  lemma AlwaysRightTakesAll(entries: seq<Entry>, minSamples: int, minImprovement: real, k: nat)
    requires WellFormed(entries) && k < |entries|
    requires forall i :: 0 <= i < |entries| ==> |entries[i].samples| >= minSamples
    requires forall s :: s in entries[k].samples ==> Certain(s)
    requires forall i :: 0 <= i < k ==> exists s :: s in entries[i].samples && !Certain(s)
    ensures var r := ComputeWeights(entries, minSamples, minImprovement);
      r.Some? && forall i :: 0 <= i < |entries| ==> r.value[i] == if i == k then 1.0 else 0.0
  {
    hide Brier, Certain;
    forall i | 0 <= i <= k ensures Scores(entries)[i] == 0.0 <==> i == k {
      PerfectIff(entries[i].samples);
    }
    var z := FirstZero(Scores(entries));
    assert z.Some? && !(z.value < k) && !(k < z.value);
  }

  /** The signal binds the model to a probability, which is the sample's, as is the outcome. */
  ghost predicate Holds(signal: Signal, model: string, s: Sample) {
    && signal.readings.Some? && signal.won == s.won
    && 0.0 <= s.probability <= 1.0 && Reading(Some(model), Number(s.probability)) in signal.readings.value
  }

  /** The samples of a model are the probabilities that signals bind it to, with the signals' outcomes. */
  lemma {:induction false} CollectedAreReadings(signals: seq<Signal>, model: string, s: Sample)
    ensures s in Collected(signals, model) <==> exists i :: 0 <= i < |signals| && Holds(signals[i], model, s)
  {
    hide Holds, FromReadings;
    if signals != [] {
      var n := |signals| - 1;
      CollectedAreReadings(signals[..n], model, s);
      LastHolds(signals[n], model, s);
      assert forall i :: 0 <= i < n ==> signals[..n][i] == signals[i];
    }
  }

  lemma LastHolds(signal: Signal, model: string, s: Sample)
    ensures Holds(signal, model, s) <==>
      signal.readings.Some? && s in FromReadings(signal.readings.value, signal.won, model)
  {
    if signal.readings.Some? {
      FromReadingsMembers(signal.readings.value, signal.won, model, s);
    }
  }

  lemma {:induction false} FromReadingsMembers(readings: seq<Reading>, won: bool, model: string, s: Sample)
    ensures s in FromReadings(readings, won, model) <==>
      won == s.won && 0.0 <= s.probability <= 1.0 && Reading(Some(model), Number(s.probability)) in readings
  {
    if readings != [] {
      FromReadingsMembers(readings[..|readings| - 1], won, model, s);
      assert readings == readings[..|readings| - 1] + [readings[|readings| - 1]];
    }
  }

  // ---- Collecting the samples ----

  /** A stored value as `Decimal(str(value))` reads it; an infinite one is as much no probability as one out of range. */
  datatype Value = Unreadable | NotANumber | Number(value: real)

  /** One entry of a signal's `model_probabilities`; the model is None where the key is no text. */
  datatype Reading = Reading(model: Option<string>, value: Value)

  /** A settled signal; `readings` is None when its data holds no such mapping. */
  datatype Signal = Signal(readings: Option<seq<Reading>>, won: bool)

  /** The range test on a NaN raises, outside the handler that skips what is unreadable. */
  datatype SampleError = NaNCompared

  predicate Raises(r: Reading) {
    r.model.Some? && r.value.NotANumber?
  }

  predicate AnyRaises(readings: seq<Reading>) {
    exists j :: 0 <= j < |readings| && Raises(readings[j])
  }

  predicate SignalRaises(s: Signal) {
    s.readings.Some? && AnyRaises(s.readings.value)
  }

  predicate IsSample(r: Reading) {
    r.model.Some? && r.value.Number? && 0.0 <= r.value.value <= 1.0
  }

  /** The sample a reading gives the model, if it is one of the model's and a probability. */
  function Reads(r: Reading, won: bool, model: string): seq<Sample> {
    if IsSample(r) && r.model.value == model then [Sample(r.value.value, won)] else []
  }

  function FromReadings(readings: seq<Reading>, won: bool, model: string): seq<Sample> {
    if readings == [] then []
    else
      FromReadings(readings[..|readings| - 1], won, model) + Reads(readings[|readings| - 1], won, model)
  }

  /** All samples of a model, in the order of the signals. */
  function Collected(signals: seq<Signal>, model: string): seq<Sample> {
    if signals == [] then []
    else
      var s := signals[|signals| - 1];
      Collected(signals[..|signals| - 1], model)
        + if s.readings.Some? then FromReadings(s.readings.value, s.won, model) else []
  }

  function SamplesFor(entries: seq<Entry>, model: string): (r: seq<Sample>)
    ensures (forall e :: e in entries ==> e.model != model) ==> r == []
  {
    if entries == [] then []
    else if entries[0].model == model then entries[0].samples
    else SamplesFor(entries[1..], model)
  }

  /** `setdefault(model, []).append(sample)`. */
  function AddSample(entries: seq<Entry>, model: string, sample: Sample): (r: seq<Entry>) {
    if entries == [] then [Entry(model, [sample])]
    else if entries[0].model == model then [Entry(model, entries[0].samples + [sample])] + entries[1..]
    else [entries[0]] + AddSample(entries[1..], model, sample)
  }

  lemma {:induction false} AddSampleLookup(entries: seq<Entry>, model: string, sample: Sample, other: string)
    ensures SamplesFor(AddSample(entries, model, sample), other)
      == SamplesFor(entries, other) + if other == model then [sample] else []
  {
    if entries != [] && entries[0].model != model {
      AddSampleLookup(entries[1..], model, sample, other);
    }
  }

  /** Adding a sample keeps the models in place, and appends a model only when it is new. */
  lemma {:induction false} AddSampleShape(entries: seq<Entry>, model: string, sample: Sample)
    requires forall i :: 0 <= i < |entries| ==> entries[i].samples != []
    ensures var r, n := AddSample(entries, model, sample), |entries|;
      && n <= |r| <= n + 1
      && (forall i :: 0 <= i < n ==> r[i].model == entries[i].model)
      && (forall i :: 0 <= i < |r| ==> r[i].samples != [])
      && (|r| > n ==> r[n].model == model && forall i :: 0 <= i < n ==> entries[i].model != model)
  {
    if entries != [] && entries[0].model != model {
      AddSampleShape(entries[1..], model, sample);
    }
  }

  lemma AddSampleAll(entries: seq<Entry>, model: string, sample: Sample)
    requires WellFormed(entries)
    ensures WellFormed(AddSample(entries, model, sample))
    ensures forall other ::
      SamplesFor(AddSample(entries, model, sample), other)
        == SamplesFor(entries, other) + if other == model then [sample] else []
  {
    hide AddSample, SamplesFor;
    AddSampleShape(entries, model, sample);
    forall other {
      AddSampleLookup(entries, model, sample, other);
    }
  }

  lemma ReadingStep(readings: seq<Reading>, j: nat, won: bool)
    requires j < |readings|
    ensures forall model ::
      FromReadings(readings[..j + 1], won, model) == FromReadings(readings[..j], won, model) + Reads(readings[j], won, model)
  {
    assert readings[..j + 1][..j] == readings[..j];
  }

  lemma EmptyReadings(won: bool)
    ensures forall model :: FromReadings([], won, model) == []
  {
  }

  /** One signal's readings, appended to the lists of their models. */
  method AddReadings(entries: seq<Entry>, readings: seq<Reading>, won: bool) returns (r: Result<seq<Entry>, SampleError>)
    requires WellFormed(entries)
    ensures r.Err? <==> AnyRaises(readings)
    ensures r.Ok? ==> WellFormed(r.value) && forall model ::
      SamplesFor(r.value, model) == SamplesFor(entries, model) + FromReadings(readings, won, model)
  {
    hide AddSample, SamplesFor, WellFormed, FromReadings;
    EmptyReadings(won);
    var grown := entries;
    assert readings[..0] == [];
    for j := 0 to |readings|
      invariant WellFormed(grown)
      invariant forall i :: 0 <= i < j ==> !Raises(readings[i])
      invariant forall model ::
        SamplesFor(grown, model) == SamplesFor(entries, model) + FromReadings(readings[..j], won, model)
    {
      var reading := readings[j];
      if Raises(reading) {
        return Err(NaNCompared);
      }
      if IsSample(reading) {
        var sample := Sample(reading.value.value, won);
        AddSampleAll(grown, reading.model.value, sample);
        grown := AddSample(grown, reading.model.value, sample);
      }
      ReadingStep(readings, j, won);
    }
    assert readings[..|readings|] == readings;
    return Ok(grown);
  }

  lemma NothingCollected()
    ensures WellFormed([]) && forall model :: SamplesFor([], model) == Collected([], model) == []
  {
  }

  lemma CollectedStep(signals: seq<Signal>, i: nat)
    requires i < |signals|
    ensures forall model ::
      Collected(signals[..i + 1], model) == Collected(signals[..i], model)
        + if signals[i].readings.Some? then FromReadings(signals[i].readings.value, signals[i].won, model) else []
  {
    assert signals[..i + 1][..i] == signals[..i];
  }

  /**
   * `extract_samples`: the samples of every model, and an entry for exactly the models that have any; it raises
   * exactly when some text key of some signal is bound to a NaN.
   */
  method ExtractSamples(signals: seq<Signal>) returns (r: Result<seq<Entry>, SampleError>)
    ensures r.Err? <==> exists i :: 0 <= i < |signals| && SignalRaises(signals[i])
    ensures r.Ok? ==> WellFormed(r.value) && forall model :: SamplesFor(r.value, model) == Collected(signals, model)
  {
    hide FromReadings, Collected, SamplesFor, WellFormed, AnyRaises;
    var entries := [];
    NothingCollected();
    for i := 0 to |signals|
      invariant WellFormed(entries)
      invariant forall k :: 0 <= k < i ==> !SignalRaises(signals[k])
      invariant forall model :: SamplesFor(entries, model) == Collected(signals[..i], model)
    {
      var s := signals[i];
      CollectedStep(signals, i);
      if s.readings.Some? {
        var added := AddReadings(entries, s.readings.value, s.won);
        if added.Err? {
          assert SignalRaises(signals[i]);
          return Err(added.error);
        }
        entries := added.value;
      }
    }
    assert signals[..|signals|] == signals;
    return Ok(entries);
  }

  // ---- The blend of positive scores ----

  ghost predicate Positive(scores: seq<real>) {
    scores != [] && AllPositive(scores)
  }

  ghost predicate AllPositive(scores: seq<real>) {
    forall i :: 0 <= i < |scores| ==> scores[i] > 0.0
  }

  lemma {:induction false} InverseTotalPositive(scores: seq<real>)
    requires Positive(scores)
    ensures InverseTotal(scores) > 0.0
  {
    SumNonNegative(scores, Reciprocal);
    assert scores[0] in scores;
    assert Reciprocal(scores[0]) > 0.0;
  }

  /** The inverse weights are a probability vector that reverses the order of the scores. */
  lemma InverseWeightsMeaning(scores: seq<real>)
    requires Positive(scores)
    ensures Total(InverseWeights(scores)) == 1.0
    ensures forall w :: w in InverseWeights(scores) ==> w > 0.0
    ensures forall i, j :: 0 <= i < |scores| && 0 <= j < |scores| ==>
      (scores[i] < scores[j] <==> InverseWeights(scores)[j] < InverseWeights(scores)[i])
  {
    InverseTotalPositive(scores);
    hide Share, Reciprocal, InverseTotal;
    var t, ws := InverseTotal(scores), InverseWeights(scores);
    TotalScaled(scores, t, ws);
    assert t / t == 1.0;
    forall i, j | 0 <= i < |scores| && 0 <= j < |scores|
      ensures scores[i] < scores[j] <==> ws[j] < ws[i]
    {
      ReciprocalOrder(scores[i], scores[j], t);
    }
    forall i | 0 <= i < |ws| ensures ws[i] > 0.0 {
      ReciprocalOrder(scores[i], scores[i], t);
    }
  }

  lemma ReciprocalOrder(a: real, b: real, t: real)
    requires a > 0.0 && b > 0.0 && t > 0.0
    ensures a < b <==> Share(Reciprocal(b), t) < Share(Reciprocal(a), t)
    ensures Share(Reciprocal(a), t) > 0.0
  {
    var x, y := 1.0 / a, 1.0 / b;
    assert x * a == 1.0 && y * b == 1.0;
    if a < b {
      assert y * (b - a) > 0.0;
      assert y * a < x * a;
      assert y < x;
    }
    if b <= a {
      assert x * (a - b) >= 0.0;
      assert x * b <= y * b;
      assert x <= y;
    }
    QuotientOrder(x, y, t);
  }

  lemma QuotientOrder(x: real, y: real, t: real)
    requires t > 0.0
    ensures y < x <==> y / t < x / t
    ensures x > 0.0 ==> x / t > 0.0
  {
    assert (x / t) * t == x && (y / t) * t == y;
  }

  lemma {:induction false} TotalScaled(scores: seq<real>, t: real, ws: seq<real>)
    requires |ws| == |scores| && t > 0.0
    requires forall i :: 0 <= i < |ws| ==> ws[i] == Share(Reciprocal(scores[i]), t)
    ensures Total(ws) == InverseTotal(scores) / t
  {
    if scores != [] {
      TotalScaled(scores[1..], t, ws[1..]);
      var a, b := Reciprocal(scores[0]), InverseTotal(scores[1..]);
      assert (a + b) / t == a / t + b / t;
    }
  }

  lemma {:induction false} DotInverse(scores: seq<real>, t: real, ws: seq<real>)
    requires |ws| == |scores| && t > 0.0
    requires AllPositive(scores)
    requires forall i :: 0 <= i < |ws| ==> ws[i] == Share(Reciprocal(scores[i]), t)
    ensures Dot(scores, ws) == |scores| as real / t
  {
    if scores != [] {
      DotInverse(scores[1..], t, ws[1..]);
      var b, n := scores[0], |scores[1..]| as real;
      ShareOfOne(b, t);
      assert (1.0 + n) / t == 1.0 / t + n / t;
      assert |scores| as real == 1.0 + n;
    }
  }

  lemma ShareOfOne(b: real, t: real)
    requires b > 0.0 && t > 0.0
    ensures Times(b, 1.0 / b / t) == 1.0 / t
  {
    var x := 1.0 / b;
    assert b * x == 1.0;
    assert b * (x / t) == (b * x) / t;
  }

  /** One step of the mean inequality: b >= 2h - h*h/b, with equality only at b = h. */
  lemma TangentBelow(b: real, h: real)
    requires b > 0.0
    ensures Times(Times(h, h), 1.0 / b) - Times(2.0, h) + b >= 0.0
    ensures Times(Times(h, h), 1.0 / b) - Times(2.0, h) + b == 0.0 <==> b == h
  {
    var x := 1.0 / b;
    var gap := Times(Times(h, h), x) - Times(2.0, h) + b;
    assert x > 0.0 && x * b == 1.0;
    assert gap * b == h * h * (x * b) - 2.0 * h * b + b * b;
    assert gap * b == Square(b - h);
    assert gap < 0.0 ==> gap * b < 0.0;
  }

  function Gap(h: real): real -> real {
    b => if b > 0.0 then Times(Times(h, h), 1.0 / b) - Times(2.0, h) + b else 0.0
  }

  lemma {:induction false} GapTotal(scores: seq<real>, h: real)
    requires AllPositive(scores)
    ensures SumOf(scores, Gap(h))
      == Times(Times(h, h), InverseTotal(scores)) - Times(Times(2.0, h), |scores| as real) + Total(scores)
  {
    hide Times;
    Units(Times(h, h));
    Units(Times(2.0, h));
    if scores != [] {
      GapTotal(scores[1..], h);
      assert scores[0] in scores;
      var b, n := scores[0], |scores[1..]| as real;
      assert |scores| as real == 1.0 + n;
      Units(Times(2.0, h));
      Distribute(1.0 / b, InverseTotal(scores[1..]), Times(h, h));
      Distribute(1.0, n, Times(2.0, h));
      assert Gap(h)(b) == Times(Times(h, h), 1.0 / b) - Times(2.0, h) + b;
    }
  }

  lemma HarmonicBalance(n: real, t: real)
    requires n > 0.0 && t > 0.0
    ensures n / t > 0.0
    ensures Times(Times(n / t, n / t), t) == Times(n / t, n)
    ensures Times(Times(2.0, n / t), n) == Times(n / t, n) + Times(n / t, n)
  {
    assert (n / t) * t == n;
  }

  lemma MeanFacts(a: real, h: real, n: real)
    requires n > 0.0
    ensures a >= Times(h, n) <==> h <= a / n
    ensures a == Times(h, n) <==> h == a / n
  {
    var m := a / n;
    assert a == m * n;
    assert a - Times(h, n) == (m - h) * n;
    if h <= m { assert (m - h) * n >= 0.0; }
    if m < h { assert (h - m) * n > 0.0; }
    if m > h { assert (m - h) * n > 0.0; }
  }

  /**
   * The blend score of the inverse weights is the harmonic mean of the scores, so it never exceeds the baseline,
   * which is their arithmetic mean, and equals it exactly when all the scores are equal.
   */
  lemma BlendIsHarmonicMean(scores: seq<real>)
    requires Positive(scores)
    ensures Dot(scores, InverseWeights(scores)) == HarmonicMean(scores)
    ensures 0.0 < Dot(scores, InverseWeights(scores)) <= Mean(scores)
    ensures Dot(scores, InverseWeights(scores)) == Mean(scores) <==> forall b :: b in scores ==> b == scores[0]
  {
    hide Times, Gap, SumOf, Dot, InverseWeights;
    InverseTotalPositive(scores);
    var n, t := |scores| as real, InverseTotal(scores);
    var h := n / t;
    BlendIsNOverT(scores);
    HarmonicBalance(n, t);
    GapTotal(scores, h);
    GapsVanish(scores, h);
    MeanFacts(Total(scores), h, n);
    assert SumOf(scores, Gap(h)) == Total(scores) - Times(h, n);
    assert scores[0] in scores;
    if forall b :: b in scores ==> b == h {
      assert forall b :: b in scores ==> b == scores[0];
    }
    if forall b :: b in scores ==> b == scores[0] {
      assert scores[0] > 0.0;
      SumConstant(scores, Reciprocal, 1.0 / scores[0]);
      HarmonicOfEqual(scores[0], n, t);
    }
  }

  lemma BlendIsNOverT(scores: seq<real>)
    requires Positive(scores)
    ensures InverseTotal(scores) > 0.0
    ensures Dot(scores, InverseWeights(scores)) == |scores| as real / InverseTotal(scores)
  {
    InverseTotalPositive(scores);
    DotInverse(scores, InverseTotal(scores), InverseWeights(scores));
  }

  lemma GapsVanish(scores: seq<real>, h: real)
    requires AllPositive(scores)
    ensures SumOf(scores, Gap(h)) >= 0.0
    ensures SumOf(scores, Gap(h)) == 0.0 <==> forall b :: b in scores ==> b == h
  {
    hide Times, SumOf;
    forall b | b in scores ensures Gap(h)(b) >= 0.0 && (Gap(h)(b) == 0.0 <==> b == h) {
      TangentBelow(b, h);
    }
    SumNonNegative(scores, Gap(h));
    SumZero(scores, Gap(h));
    assert scores != [] ==> scores[0] in scores;
  }

  lemma HarmonicOfEqual(b: real, n: real, t: real)
    requires b > 0.0 && n > 0.0 && t == 1.0 / b * n
    ensures t > 0.0 && n / t == b
  {
    var x := 1.0 / b;
    assert x * b == 1.0;
    assert t * b == n;
    assert t > 0.0;
    assert n / t == b * (t / t);
  }

  // ---- The gate ----

  lemma ScoresPositive(entries: seq<Entry>)
    requires WellFormed(entries) && entries != [] && FirstZero(Scores(entries)).None?
    ensures Positive(Scores(entries))
  {
  }

  /**
   * Weights are promoted exactly when every model has enough samples and either some model never missed or the
   * blend is better than the baseline by the required share of it.
   */
  lemma PromotedIff(entries: seq<Entry>, minSamples: int, minImprovement: real)
    requires WellFormed(entries)
    ensures ComputeWeights(entries, minSamples, minImprovement).Some? <==>
      && entries != []
      && (forall i :: 0 <= i < |entries| ==> |entries[i].samples| >= minSamples)
      && ((exists i :: 0 <= i < |entries| && Scores(entries)[i] == 0.0)
        || HarmonicMean(Scores(entries)) <= Times(1.0 - minImprovement, Mean(Scores(entries))))
  {
    hide Brier, Mean, Times, Dot, HarmonicMean, InverseWeights;
    if entries != [] && FirstZero(Scores(entries)).None? {
      ScoresPositive(entries);
      BlendIsHarmonicMean(Scores(entries));
      Distribute(1.0, -minImprovement, Mean(Scores(entries)));
      TimesNegative(minImprovement, Mean(Scores(entries)));
      Units(Mean(Scores(entries)));
    }
  }

  /** Promoted weights are a probability vector; a better score never weighs less. */
  lemma PromotedWeights(entries: seq<Entry>, minSamples: int, minImprovement: real)
    requires WellFormed(entries) && ComputeWeights(entries, minSamples, minImprovement).Some?
    ensures var ws := ComputeWeights(entries, minSamples, minImprovement).value;
      Total(ws) == 1.0 && forall w :: w in ws ==> w >= 0.0
    ensures var ws := ComputeWeights(entries, minSamples, minImprovement).value;
      forall i, j :: 0 <= i < |ws| && 0 <= j < |ws| && ws[i] > ws[j] ==> Scores(entries)[i] <= Scores(entries)[j]
  {
    var scores := Scores(entries);
    if FirstZero(scores).Some? {
      var k := FirstZero(scores).value;
      OneHotTotal(|scores|, k);
    } else {
      ScoresPositive(entries);
      InverseWeightsMeaning(scores);
    }
  }

  lemma {:induction false} OneHotTotal(n: nat, k: nat)
    requires k < n
    ensures Total(OneHot(n, k)) == 1.0
  {
    var ws := OneHot(n, k);
    assert ws == ws[..k] + [1.0] + ws[k + 1..];
    SumAppend(ws[..k] + [1.0], ws[k + 1..], Identity);
    SumSnoc(ws[..k], 1.0, Identity);
    SumConstant(ws[..k], Identity, 0.0);
    SumConstant(ws[k + 1..], Identity, 0.0);
  }

  lemma GateNeedsGain(share: real, baseline: real)
    requires share > 0.0 && baseline > 0.0
    ensures Times(share, baseline) > 0.0
  {
  }

  /** A positive required improvement never promotes models that score alike. */
  lemma EqualModelsNotPromoted(entries: seq<Entry>, minSamples: int, minImprovement: real)
    requires WellFormed(entries) && entries != [] && minImprovement > 0.0
    requires Scores(entries)[0] > 0.0 && forall b :: b in Scores(entries) ==> b == Scores(entries)[0]
    ensures ComputeWeights(entries, minSamples, minImprovement).None?
  {
    var scores := Scores(entries);
    assert forall i :: 0 <= i < |scores| ==> scores[i] in scores;
    BlendIsHarmonicMean(scores);
    GateNeedsGain(minImprovement, Mean(scores));
  }
}
