/** Pooled bucket probabilities of an ensemble forecast (app/services/probability.py). */
module WeatherProbability {
  import opened Outcomes
  import opened Sums
  import opened Products
  import opened Rounding
  import opened Buckets

  datatype Member = Member(model: string, value: Option<real>, excluded: bool, bias: real) {
    predicate Valid() { value.Some? && !excluded }
    function Corrected(): real { if value.Some? then value.value + bias else 0.0 }
  }

  datatype Forecast = Forecast(
    validMembers: nat, excludedMembers: nat, probabilities: map<string, real>, weights: map<string, real>)

  datatype ForecastError = NonPositiveWeights

  // ---- What the loops compute ----

  /** The valid members of one model, in order. */
  function OfModel(members: seq<Member>, model: string): (r: seq<Member>)
    ensures forall m :: m in r ==> m in members && m.Valid() && m.model == model
  {
    if members == [] then []
    else
      var last := members[|members| - 1];
      OfModel(members[..|members| - 1], model) + if last.Valid() && last.model == model then [last] else []
  }

  /** The models that have a valid member, in the order they first appear. */
  function Models(members: seq<Member>): (r: seq<string>)
    ensures forall i, j :: 0 <= i < j < |r| ==> r[i] != r[j]
    ensures forall model :: model in r <==> OfModel(members, model) != []
  {
    if members == [] then []
    else
      var last, front := members[|members| - 1], Models(members[..|members| - 1]);
      if last.Valid() && last.model !in front then front + [last.model] else front
  }

  /** The labels of the outcome dictionary: each once, in order. */
  function Labels(buckets: seq<Bucket>): (r: seq<string>)
    ensures forall i, j :: 0 <= i < j < |r| ==> r[i] != r[j]
    ensures forall x :: x in r <==> exists b :: b in buckets && b.title == x
  {
    if buckets == [] then []
    else
      var last, front := buckets[|buckets| - 1], Labels(buckets[..|buckets| - 1]);
      assert forall b :: b in buckets <==> b == last || b in buckets[..|buckets| - 1];
      if last.title in front then front else front + [last.title]
  }

  /** The label the member's rounded temperature falls under. */
  function LabelOf(m: Member, buckets: seq<Bucket>, mode: Mode): (r: Option<string>)
    ensures r.Some? ==> r.value in Labels(buckets)
  {
    var b := FirstContaining(buckets, RoundWhole(m.Corrected(), mode) as real);
    if b.None? then None else Some(b.value.title)
  }

  function Hit(buckets: seq<Bucket>, mode: Mode, x: string): Member -> real {
    m => if LabelOf(m, buckets, mode) == Some(x) then 1.0 else 0.0
  }

  function Mapped(buckets: seq<Bucket>, mode: Mode): Member -> real {
    m => if LabelOf(m, buckets, mode).Some? then 1.0 else 0.0
  }

  function Fraction(ms: seq<Member>, f: Member -> real): real {
    if ms == [] then 0.0 else SumOf(ms, f) / |ms| as real
  }

  function Weight(weights: map<string, real>, model: string): real {
    if model in weights then weights[model] else 1.0
  }

  function WeightOf(weights: map<string, real>): string -> real {
    model => Weight(weights, model)
  }

  function RawTotal(members: seq<Member>, weights: map<string, real>): real {
    SumOf(Models(members), WeightOf(weights))
  }

  /** The model's share of the total weight. */
  function Normal(members: seq<Member>, weights: map<string, real>, model: string): real {
    if RawTotal(members, weights) == 0.0 then 0.0 else Weight(weights, model) / RawTotal(members, weights)
  }

  /** What a model adds to the weight of the members that `f` counts. */
  function Part(members: seq<Member>, weights: map<string, real>, f: Member -> real): string -> real {
    model => Times(Normal(members, weights, model), Fraction(OfModel(members, model), f))
  }

  /** The weight of the members that `f` counts, before the final normalization. */
  function Mass(members: seq<Member>, weights: map<string, real>, f: Member -> real): real {
    SumOf(Models(members), Part(members, weights, f))
  }

  function Pooled(
    members: seq<Member>, buckets: seq<Bucket>, mode: Mode, weights: map<string, real>, x: string): real
  {
    var total := Mass(members, weights, Mapped(buckets, mode));
    var mass := Mass(members, weights, Hit(buckets, mode, x));
    if total == 0.0 then mass else mass / total
  }

  function Counted(members: seq<Member>, p: Member -> bool): (r: nat)
    ensures r <= |members|
  {
    if members == [] then 0
    else Counted(members[..|members| - 1], p) + if p(members[|members| - 1]) then 1 else 0
  }

  function IsValid(): Member -> bool { (m: Member) => m.Valid() }

  /** Valid, with a temperature that falls in some bucket. */
  function IsMapped(buckets: seq<Bucket>, mode: Mode): Member -> bool {
    (m: Member) => m.Valid() && LabelOf(m, buckets, mode).Some?
  }

  /** `calculate_probabilities` without its spread and uncertainty figures. */
  function Calculate(members: seq<Member>, buckets: seq<Bucket>, mode: Mode, weights: map<string, real>)
    : Result<Forecast, ForecastError>
  {
    if Models(members) == [] then Ok(Forecast(0, |members|, map x | x in Labels(buckets) :: 0.0, map[]))
    else if RawTotal(members, weights) <= 0.0 then Err(NonPositiveWeights)
    else
      var n := Counted(members, IsMapped(buckets, mode));
      Ok(Forecast(n, |members| - n,
        map x | x in Labels(buckets) :: Pooled(members, buckets, mode, weights, x),
        map model | model in Models(members) :: Normal(members, weights, model)))
  }

  // ---- The masses of the labels add up ----

  function HitOf(buckets: seq<Bucket>, mode: Mode, m: Member): string -> real {
    x => Hit(buckets, mode, x)(m)
  }

  function CountOf(buckets: seq<Bucket>, mode: Mode, ms: seq<Member>): string -> real {
    x => SumOf(ms, Hit(buckets, mode, x))
  }

  function FractionOf(buckets: seq<Bucket>, mode: Mode, ms: seq<Member>): string -> real {
    x => Fraction(ms, Hit(buckets, mode, x))
  }

  /** A mapped member is hit by exactly one label. */
  lemma HitsAddUp(m: Member, buckets: seq<Bucket>, mode: Mode)
    ensures SumOf(Labels(buckets), HitOf(buckets, mode, m)) == Mapped(buckets, mode)(m)
  {
    hide Labels, LabelOf, SumOf;
    var f := HitOf(buckets, mode, m);
    var at := LabelOf(m, buckets, mode);
    forall x ensures f(x) == if at == Some(x) then 1.0 else 0.0 {
      assert f(x) == Hit(buckets, mode, x)(m);
    }
    if at.Some? {
      SumIndicator(Labels(buckets), at.value, f);
    } else {
      SumConstant(Labels(buckets), f, 0.0);
    }
  }

  lemma {:induction false} CountsAddUp(ms: seq<Member>, buckets: seq<Bucket>, mode: Mode)
    ensures SumOf(Labels(buckets), CountOf(buckets, mode, ms)) == SumOf(ms, Mapped(buckets, mode))
  {
    hide Labels, LabelOf, Mapped, Hit;
    var f := CountOf(buckets, mode, ms);
    if ms == [] {
      SumConstant(Labels(buckets), f, 0.0);
    } else {
      HitsAddUp(ms[0], buckets, mode);
      CountsAddUp(ms[1..], buckets, mode);
      var head, tail := HitOf(buckets, mode, ms[0]), CountOf(buckets, mode, ms[1..]);
      forall x ensures f(x) == 1.0 * head(x) + 1.0 * tail(x) {
        assert f(x) == SumOf(ms, Hit(buckets, mode, x));
      }
      SumLinear(Labels(buckets), f, 1.0, head, 1.0, tail);
    }
  }

  lemma FractionsAddUp(ms: seq<Member>, buckets: seq<Bucket>, mode: Mode)
    ensures SumOf(Labels(buckets), FractionOf(buckets, mode, ms)) == Fraction(ms, Mapped(buckets, mode))
  {
    hide Labels, LabelOf, Mapped, Hit, SumOf;
    var f := FractionOf(buckets, mode, ms);
    if ms == [] {
      SumConstant(Labels(buckets), f, 0.0);
    } else {
      var n := |ms| as real;
      CountsAddUp(ms, buckets, mode);
      var g := CountOf(buckets, mode, ms);
      forall x ensures f(x) == (1.0 / n) * g(x) {
        assert f(x) == Fraction(ms, Hit(buckets, mode, x));
        QuotientAsProduct(g(x), n);
      }
      SumScale(Labels(buckets), f, 1.0 / n, g);
      QuotientAsProduct(SumOf(ms, Mapped(buckets, mode)), n);
    }
  }

  lemma QuotientAsProduct(a: real, n: real)
    requires n != 0.0
    ensures a / n == (1.0 / n) * a
  {
  }

  function MassOf(
    models: seq<string>, members: seq<Member>, buckets: seq<Bucket>, mode: Mode, weights: map<string, real>)
    : string -> real
  {
    x => SumOf(models, Part(members, weights, Hit(buckets, mode, x)))
  }

  lemma PartsAddUp(
    model: string, members: seq<Member>, buckets: seq<Bucket>, mode: Mode, weights: map<string, real>,
    f: string -> real)
    requires forall x :: f(x) == Part(members, weights, Hit(buckets, mode, x))(model)
    ensures SumOf(Labels(buckets), f) == Part(members, weights, Mapped(buckets, mode))(model)
  {
    hide Labels, LabelOf, Mapped, Hit, SumOf, Normal, Fraction;
    var ms, w := OfModel(members, model), Normal(members, weights, model);
    FractionsAddUp(ms, buckets, mode);
    var g := FractionOf(buckets, mode, ms);
    forall x ensures f(x) == w * g(x) {
      assert g(x) == Fraction(ms, Hit(buckets, mode, x));
    }
    SumScale(Labels(buckets), f, w, g);
  }

  function PartOf(
    model: string, members: seq<Member>, buckets: seq<Bucket>, mode: Mode, weights: map<string, real>)
    : string -> real
  {
    x => Part(members, weights, Hit(buckets, mode, x))(model)
  }

  lemma MassSplits(
    models: seq<string>, members: seq<Member>, buckets: seq<Bucket>, mode: Mode, weights: map<string, real>)
    requires models != []
    ensures forall x ::
      MassOf(models, members, buckets, mode, weights)(x)
        == 1.0 * PartOf(models[0], members, buckets, mode, weights)(x)
          + 1.0 * MassOf(models[1..], members, buckets, mode, weights)(x)
  {
    hide Part, Hit;
  }

  lemma {:induction false} MassesAddUp(
    models: seq<string>, members: seq<Member>, buckets: seq<Bucket>, mode: Mode, weights: map<string, real>)
    ensures SumOf(Labels(buckets), MassOf(models, members, buckets, mode, weights))
      == SumOf(models, Part(members, weights, Mapped(buckets, mode)))
  {
    hide Labels, LabelOf, Mapped, Hit, Normal, Fraction, Part;
    var f := MassOf(models, members, buckets, mode, weights);
    if models == [] {
      SumConstant(Labels(buckets), f, 0.0);
    } else {
      MassesAddUp(models[1..], members, buckets, mode, weights);
      var head := PartOf(models[0], members, buckets, mode, weights);
      var tail := MassOf(models[1..], members, buckets, mode, weights);
      PartsAddUp(models[0], members, buckets, mode, weights, head);
      MassSplits(models, members, buckets, mode, weights);
      SumLinear(Labels(buckets), f, 1.0, head, 1.0, tail);
    }
  }

  function PooledOf(members: seq<Member>, buckets: seq<Bucket>, mode: Mode, weights: map<string, real>)
    : string -> real
  {
    x => Pooled(members, buckets, mode, weights, x)
  }

  /** The probabilities sum to one exactly when the mapped members carry some weight, and to zero otherwise. */
  lemma ProbabilitiesSum(members: seq<Member>, buckets: seq<Bucket>, mode: Mode, weights: map<string, real>)
    ensures SumOf(Labels(buckets), PooledOf(members, buckets, mode, weights))
      == if Mass(members, weights, Mapped(buckets, mode)) == 0.0 then 0.0 else 1.0
  {
    hide Labels, LabelOf, Mapped, Hit, Part, Models, SumOf;
    var total := Mass(members, weights, Mapped(buckets, mode));
    var f, g := PooledOf(members, buckets, mode, weights), MassOf(Models(members), members, buckets, mode, weights);
    MassesAddUp(Models(members), members, buckets, mode, weights);
    forall x ensures g(x) == Mass(members, weights, Hit(buckets, mode, x)) {
    }
    if total == 0.0 {
      SumCongruent(Labels(buckets), f, g);
    } else {
      forall x ensures f(x) == (1.0 / total) * g(x) {
        assert f(x) == Pooled(members, buckets, mode, weights, x);
        QuotientAsProduct(g(x), total);
      }
      SumScale(Labels(buckets), f, 1.0 / total, g);
      QuotientAsProduct(total, total);
    }
  }

  lemma FractionMono(ms: seq<Member>, f: Member -> real, g: Member -> real)
    requires forall m :: m in ms ==> f(m) <= g(m)
    ensures Fraction(ms, f) <= Fraction(ms, g)
  {
    SumMono(ms, f, g);
    if ms != [] {
      hide SumOf;
      QuotientAsProduct(SumOf(ms, f), |ms| as real);
      QuotientAsProduct(SumOf(ms, g), |ms| as real);
      Scaled(1.0 / |ms| as real, SumOf(ms, f), SumOf(ms, g));
    }
  }

  lemma FractionConstant(ms: seq<Member>, f: Member -> real, c: real)
    requires ms != [] && forall m :: m in ms ==> f(m) == c
    ensures Fraction(ms, f) == c
  {
    hide SumOf;
    SumConstant(ms, f, c);
    assert (c * |ms| as real) / |ms| as real == c;
  }

  lemma HitWithinMapped(ms: seq<Member>, buckets: seq<Bucket>, mode: Mode, x: string)
    ensures 0.0 <= Fraction(ms, Hit(buckets, mode, x)) <= Fraction(ms, Mapped(buckets, mode)) <= 1.0
  {
    hide LabelOf, Fraction;
    var none, hit, mapped, all := (m: Member) => 0.0, Hit(buckets, mode, x), Mapped(buckets, mode), (m: Member) => 1.0;
    FractionMono(ms, none, hit);
    FractionMono(ms, hit, mapped);
    FractionMono(ms, mapped, all);
    if ms == [] {
      NoFraction(hit);
      NoFraction(mapped);
    } else {
      FractionConstant(ms, none, 0.0);
      FractionConstant(ms, all, 1.0);
    }
  }

  lemma NoFraction(f: Member -> real)
    ensures Fraction([], f) == 0.0
  {
  }

  lemma Scaled(q: real, a: real, b: real)
    requires q >= 0.0 && a <= b
    ensures q * a <= q * b
  {
  }

  ghost predicate WeightsOk(members: seq<Member>, weights: map<string, real>) {
    && RawTotal(members, weights) > 0.0
    && forall model :: model in Models(members) ==> Weight(weights, model) >= 0.0
  }

  lemma NormalRange(members: seq<Member>, weights: map<string, real>)
    requires WeightsOk(members, weights)
    ensures forall model :: model in Models(members) ==> 0.0 <= Normal(members, weights, model)
    ensures SumOf(Models(members), model => Normal(members, weights, model)) == 1.0
  {
    hide Models, Normal, Weight;
    NormalSum(members, weights);
    forall model | model in Models(members) ensures 0.0 <= Normal(members, weights, model) {
      NormalNotNegative(members, weights, model);
    }
  }

  lemma NormalNotNegative(members: seq<Member>, weights: map<string, real>, model: string)
    requires RawTotal(members, weights) > 0.0 && Weight(weights, model) >= 0.0
    ensures 0.0 <= Normal(members, weights, model)
  {
    hide RawTotal, Weight;
    var t := RawTotal(members, weights);
    QuotientAsProduct(Weight(weights, model), t);
    Scaled(1.0 / t, 0.0, Weight(weights, model));
  }

  /** With weights that are not negative every pooled value is a probability. */
  lemma ProbabilityRange(
    members: seq<Member>, buckets: seq<Bucket>, mode: Mode, weights: map<string, real>, x: string)
    requires WeightsOk(members, weights)
    ensures 0.0 <= Pooled(members, buckets, mode, weights, x) <= 1.0
  {
    hide Models, SumOf, Normal, Fraction, Hit, Mapped, Times, RawTotal;
    NormalRange(members, weights);
    var f, g := Part(members, weights, Hit(buckets, mode, x)), Part(members, weights, Mapped(buckets, mode));
    forall model | model in Models(members) ensures 0.0 <= f(model) <= g(model) {
      HitWithinMapped(OfModel(members, model), buckets, mode, x);
      var w := Normal(members, weights, model);
      Units(w);
      Mono(w, 0.0, Fraction(OfModel(members, model), Hit(buckets, mode, x)));
      Mono(w, Fraction(OfModel(members, model), Hit(buckets, mode, x)),
        Fraction(OfModel(members, model), Mapped(buckets, mode)));
    }
    SumNonNegative(Models(members), f);
    SumMono(Models(members), f, g);
    QuotientRange(SumOf(Models(members), f), SumOf(Models(members), g));
  }

  lemma QuotientRange(a: real, b: real)
    requires 0.0 <= a <= b
    ensures b > 0.0 ==> 0.0 <= a / b <= 1.0
  {
  }

  // ---- The pool is a mixture of the runs on one model each ----

  /** All rows of one model, as the worker groups them for the run on that model alone. */
  function Rows(members: seq<Member>, model: string): seq<Member> {
    if members == [] then []
    else
      var last := members[|members| - 1];
      Rows(members[..|members| - 1], model) + if last.model == model then [last] else []
  }

  lemma {:induction false} RowsOfModel(members: seq<Member>, model: string, other: string)
    ensures OfModel(Rows(members, model), other) == if other == model then OfModel(members, model) else []
  {
    if members != [] {
      var front, last := members[..|members| - 1], members[|members| - 1];
      RowsOfModel(front, model, other);
      if last.model == model {
        assert Rows(members, model)[..|Rows(front, model)|] == Rows(front, model);
      } else {
        assert Rows(members, model) == Rows(front, model);
      }
    }
  }

  /** The same function, run on the rows of one model with no weights, as the worker records it for each model. */
  function Alone(members: seq<Member>, buckets: seq<Bucket>, mode: Mode, x: string): string -> real {
    model => Pooled(Rows(members, model), buckets, mode, map[], x)
  }

  lemma TwoMembers(xs: seq<string>)
    requires forall i, j :: 0 <= i < j < |xs| ==> xs[i] != xs[j]
    ensures |xs| > 1 ==> exists y, z :: y in xs && z in xs && y != z
  {
    if |xs| > 1 {
      assert xs[0] in xs && xs[1] in xs && xs[0] != xs[1];
    }
  }

  lemma Singleton(xs: seq<string>, x: string)
    requires forall i, j :: 0 <= i < j < |xs| ==> xs[i] != xs[j]
    requires forall y :: y in xs <==> y == x
    ensures xs == [x]
  {
    assert x in xs;
    TwoMembers(xs);
  }

  lemma AloneModels(members: seq<Member>, model: string)
    requires model in Models(members)
    ensures Models(Rows(members, model)) == [model]
  {
    hide Models, Rows, OfModel;
    var r := Rows(members, model);
    forall other ensures other in Models(r) <==> other == model {
      RowsOfModel(members, model, other);
    }
    Singleton(Models(r), model);
  }

  lemma AloneNormal(members: seq<Member>, model: string)
    requires model in Models(members)
    ensures RawTotal(Rows(members, model), map[]) == 1.0
    ensures Normal(Rows(members, model), map[], model) == 1.0
  {
    hide Models, Rows, SumOf;
    AloneModels(members, model);
    SumOne(model, WeightOf(map[]));
  }

  lemma AloneMass(members: seq<Member>, model: string, f: Member -> real)
    requires model in Models(members)
    ensures Mass(Rows(members, model), map[], f) == Fraction(OfModel(members, model), f)
  {
    hide Models, Rows, OfModel, Fraction, SumOf, Times, Normal;
    AloneModels(members, model);
    AloneNormal(members, model);
    RowsOfModel(members, model, model);
    SumOne(model, Part(Rows(members, model), map[], f));
    Units(Fraction(OfModel(members, model), f));
  }

  /** A model's run alone, scaled back by the share of its members that some bucket holds. */
  lemma AloneScaled(members: seq<Member>, buckets: seq<Bucket>, mode: Mode, x: string, model: string)
    requires model in Models(members)
    ensures Fraction(OfModel(members, model), Hit(buckets, mode, x))
      == Times(Fraction(OfModel(members, model), Mapped(buckets, mode)), Alone(members, buckets, mode, x)(model))
  {
    hide Models, Rows, OfModel, Fraction, Times, Mass, Hit, Mapped;
    var ms := OfModel(members, model);
    AloneMass(members, model, Hit(buckets, mode, x));
    AloneMass(members, model, Mapped(buckets, mode));
    HitWithinMapped(ms, buckets, mode, x);
    var hit, mapped := Fraction(ms, Hit(buckets, mode, x)), Fraction(ms, Mapped(buckets, mode));
    if mapped == 0.0 {
      Units(hit);
      Units(Alone(members, buckets, mode, x)(model));
    } else {
      Quotient(hit, mapped);
    }
  }

  /** What a model's run alone weighs in the pool: its weight times the share of its members that count. */
  function Stake(members: seq<Member>, buckets: seq<Bucket>, mode: Mode, weights: map<string, real>): string -> real {
    Part(members, weights, Mapped(buckets, mode))
  }

  function Weighted(stake: string -> real, value: string -> real): string -> real {
    model => Times(stake(model), value(model))
  }

  /** The pool is the stake-weighted average of the runs on one model each, whatever the members and weights. */
  lemma PoolIsMixture(
    members: seq<Member>, buckets: seq<Bucket>, mode: Mode, weights: map<string, real>, x: string)
    requires SumOf(Models(members), Stake(members, buckets, mode, weights)) != 0.0
    ensures Pooled(members, buckets, mode, weights, x)
      == SumOf(Models(members), Weighted(Stake(members, buckets, mode, weights), Alone(members, buckets, mode, x)))
        / SumOf(Models(members), Stake(members, buckets, mode, weights))
  {
    hide Models, Rows, OfModel, Fraction, Times, Hit, Mapped, SumOf, Normal;
    var f := Part(members, weights, Hit(buckets, mode, x));
    var g := Weighted(Stake(members, buckets, mode, weights), Alone(members, buckets, mode, x));
    forall model | model in Models(members) ensures f(model) == g(model) {
      AloneScaled(members, buckets, mode, x, model);
      Associate(Normal(members, weights, model), Fraction(OfModel(members, model), Mapped(buckets, mode)),
        Alone(members, buckets, mode, x)(model));
    }
    SumCongruent(Models(members), f, g);
  }

  ghost predicate AllMapped(members: seq<Member>, buckets: seq<Bucket>, mode: Mode) {
    forall m :: m in members && m.Valid() ==> LabelOf(m, buckets, mode).Some?
  }

  lemma MappedFraction(members: seq<Member>, buckets: seq<Bucket>, mode: Mode, model: string)
    requires AllMapped(members, buckets, mode) && model in Models(members)
    ensures Fraction(OfModel(members, model), Mapped(buckets, mode)) == 1.0
  {
    hide Models, LabelOf, OfModel, Fraction;
    FractionConstant(OfModel(members, model), Mapped(buckets, mode), 1.0);
  }

  /** When every valid member is mapped, the pool is the average of the runs alone by normalized weight, and sums to one. */
  lemma MappedPoolIsMixture(
    members: seq<Member>, buckets: seq<Bucket>, mode: Mode, weights: map<string, real>, x: string)
    requires AllMapped(members, buckets, mode) && RawTotal(members, weights) > 0.0
    ensures Pooled(members, buckets, mode, weights, x)
      == SumOf(Models(members),
        Weighted(model => Normal(members, weights, model), Alone(members, buckets, mode, x)))
    ensures SumOf(Labels(buckets), PooledOf(members, buckets, mode, weights)) == 1.0
  {
    hide Models, Rows, OfModel, Fraction, Times, Hit, Mapped, SumOf, Pooled, Alone, Labels, AllMapped, RawTotal;
    var w := (model: string) => Normal(members, weights, model);
    var stake, alone := Stake(members, buckets, mode, weights), Alone(members, buckets, mode, x);
    forall model | model in Models(members) ensures stake(model) == w(model) {
      MappedFraction(members, buckets, mode, model);
      Units(w(model));
    }
    SumCongruent(Models(members), stake, w);
    SumCongruent(Models(members), Weighted(stake, alone), Weighted(w, alone));
    NormalSum(members, weights);
    PoolIsMixture(members, buckets, mode, weights, x);
    ProbabilitiesSum(members, buckets, mode, weights);
  }

  lemma NormalSum(members: seq<Member>, weights: map<string, real>)
    requires RawTotal(members, weights) > 0.0
    ensures SumOf(Models(members), model => Normal(members, weights, model)) == 1.0
  {
    hide Models, SumOf;
    var t := RawTotal(members, weights);
    var f, g := (model: string) => Normal(members, weights, model), WeightOf(weights);
    forall model ensures f(model) == (1.0 / t) * g(model) {
      QuotientAsProduct(g(model), t);
    }
    SumScale(Models(members), f, 1.0 / t, g);
    QuotientAsProduct(t, t);
  }

  /** An accepted bucket family on whole bounds maps every member, whatever its temperature. */
  lemma AcceptedBucketsMapAll(members: seq<Member>, event: seq<Bucket>, mode: Mode)
    requires AllInclusive(event) && AllIntegral(event) && ValidateComplete(event).Ok?
    ensures AllMapped(members, ValidateComplete(event).value, mode)
  {
    hide ValidateComplete, FirstContaining;
    forall m | m in members && m.Valid() ensures LabelOf(m, ValidateComplete(event).value, mode).Some? {
      var winner := LookupFindsTheOne(event, RoundWhole(m.Corrected(), mode));
    }
  }

  // ---- The recorded values ----

  /** The value the worker reads from a result for a label: 0 when the label is not among the outcomes. */
  function ProbabilityOf(
    members: seq<Member>, buckets: seq<Bucket>, mode: Mode, weights: map<string, real>, x: string): real
  {
    var r := Calculate(members, buckets, mode, weights);
    if r.Ok? && x in r.value.probabilities then r.value.probabilities[x] else 0.0
  }

  lemma AbsentLabel(members: seq<Member>, buckets: seq<Bucket>, mode: Mode, weights: map<string, real>, x: string)
    requires x !in Labels(buckets)
    ensures Pooled(members, buckets, mode, weights, x) == 0.0
  {
    hide Labels, LabelOf, Models, SumOf, Fraction, Normal, Times;
    var f := Part(members, weights, Hit(buckets, mode, x));
    forall model ensures f(model) == 0.0 {
      var ms := OfModel(members, model);
      Units(Normal(members, weights, model));
      if ms == [] {
        NoFraction(Hit(buckets, mode, x));
      } else {
        FractionConstant(ms, Hit(buckets, mode, x), 0.0);
      }
    }
    SumConstant(Models(members), f, 0.0);
  }

  lemma RecordedIsPooled(
    members: seq<Member>, buckets: seq<Bucket>, mode: Mode, weights: map<string, real>, x: string)
    requires Models(members) != [] && RawTotal(members, weights) > 0.0
    ensures ProbabilityOf(members, buckets, mode, weights, x) == Pooled(members, buckets, mode, weights, x)
  {
    hide Labels, Models, Pooled, RawTotal;
    if x !in Labels(buckets) {
      AbsentLabel(members, buckets, mode, weights, x);
    }
  }

  function RecordedAlone(members: seq<Member>, buckets: seq<Bucket>, mode: Mode, x: string): string -> real {
    model => ProbabilityOf(Rows(members, model), buckets, mode, map[], x)
  }

  /**
   * When every valid member is mapped, the recorded probability of any label is the average, by normalized
   * weight, of what the same function records for each model alone.
   */
  lemma RecordedIsMixture(
    members: seq<Member>, buckets: seq<Bucket>, mode: Mode, weights: map<string, real>, x: string)
    requires AllMapped(members, buckets, mode) && Calculate(members, buckets, mode, weights).Ok?
    ensures ProbabilityOf(members, buckets, mode, weights, x)
      == SumOf(Models(members),
        Weighted(model => Normal(members, weights, model), RecordedAlone(members, buckets, mode, x)))
  {
    hide Labels, Pooled, RawTotal, SumOf, Normal, Times, AllMapped, Rows;
    if Models(members) != [] {
      hide Models;
      MappedPoolIsMixture(members, buckets, mode, weights, x);
      RecordedIsPooled(members, buckets, mode, weights, x);
      var w := (model: string) => Normal(members, weights, model);
      var f, g := Weighted(w, Alone(members, buckets, mode, x)), Weighted(w, RecordedAlone(members, buckets, mode, x));
      forall model | model in Models(members) ensures f(model) == g(model) {
        AloneModels(members, model);
        AloneNormal(members, model);
        RecordedIsPooled(Rows(members, model), buckets, mode, map[], x);
      }
      SumCongruent(Models(members), f, g);
    } else {
      NothingRecorded(members, buckets, mode, weights, x);
    }
  }

  lemma NothingRecorded(
    members: seq<Member>, buckets: seq<Bucket>, mode: Mode, weights: map<string, real>, x: string)
    requires Models(members) == []
    ensures ProbabilityOf(members, buckets, mode, weights, x) == 0.0
    ensures forall f :: SumOf(Models(members), f) == 0.0
  {
  }

  // ---- Members, weights and counts ----

  /** A valid member falls under the label of the first bucket that holds its value plus its bias, rounded. */
  lemma MemberLabel(m: Member, buckets: seq<Bucket>, mode: Mode, x: string)
    requires m.value.Some?
    ensures LabelOf(m, buckets, mode) == Some(x) <==>
      exists i :: FirstHolds(buckets, RoundWhole(m.value.value + m.bias, mode) as real, i) && buckets[i].title == x
    ensures LabelOf(m, buckets, mode).None? <==>
      forall i :: 0 <= i < |buckets| ==> !buckets[i].Contains(RoundWhole(m.value.value + m.bias, mode) as real)
  {
    hide RoundWhole, FirstContaining, Labels;
    var v := RoundWhole(m.value.value + m.bias, mode) as real;
    FoundIsFirst(buckets, v);
    forall i | 0 <= i < |buckets| && buckets[i].Contains(v) ensures FirstContaining(buckets, v).Some? {
      HolderFound(buckets, v, i);
    }
    if FirstContaining(buckets, v).Some? {
      var k :| FirstHolds(buckets, v, k) && FirstContaining(buckets, v) == Some(buckets[k]);
      assert forall i :: FirstHolds(buckets, v, i) ==> !(i < k) && !(k < i);
    }
  }

  /** A model without a stored weight weighs exactly as if a weight of one were stored for it. */
  lemma DefaultWeightIsOne(members: seq<Member>, weights: map<string, real>, model: string, other: string)
    requires model !in weights
    ensures Normal(members, weights[model := 1.0], other) == Normal(members, weights, other)
  {
    hide Models, SumOf;
    var f, g := WeightOf(weights), WeightOf(weights[model := 1.0]);
    forall x ensures f(x) == g(x) {
    }
    SumCongruent(Models(members), f, g);
  }

  /** Normalized weights are in proportion to the stored ones. */
  lemma NormalProportional(members: seq<Member>, weights: map<string, real>, a: string, b: string)
    requires RawTotal(members, weights) > 0.0 && a in weights && b in weights
    ensures Normal(members, weights, a) * weights[b] == Normal(members, weights, b) * weights[a]
  {
    hide RawTotal;
    var t, x, y := RawTotal(members, weights), weights[a], weights[b];
    QuotientAsProduct(x, t);
    QuotientAsProduct(y, t);
    assert ((1.0 / t) * x) * y == ((1.0 / t) * y) * x;
  }

  /** What a forecast counts: the valid members in some bucket, and all the others. */
  lemma ForecastCounts(members: seq<Member>, buckets: seq<Bucket>, mode: Mode, weights: map<string, real>)
    requires Calculate(members, buckets, mode, weights).Ok?
    ensures var f := Calculate(members, buckets, mode, weights).value;
      && f.validMembers == |set i | 0 <= i < |members| && members[i].value.Some? && !members[i].excluded
        && LabelOf(members[i], buckets, mode).Some?|
      && f.validMembers + f.excludedMembers == |members|
      && f.probabilities.Keys == (set x | x in Labels(buckets))
      && f.weights.Keys == (set model | model in Models(members))
  {
    hide Models, Labels, LabelOf, OfModel, Pooled, Normal, RawTotal;
    CountedIsSize(members, IsMapped(buckets, mode));
    assert (set i | 0 <= i < |members| && members[i].value.Some? && !members[i].excluded
        && LabelOf(members[i], buckets, mode).Some?)
      == (set i | 0 <= i < |members| && IsMapped(buckets, mode)(members[i]));
    if Models(members) == [] {
      CountedNone(members, buckets, mode);
    }
  }

  lemma CountedNone(members: seq<Member>, buckets: seq<Bucket>, mode: Mode)
    requires Models(members) == []
    ensures Counted(members, IsMapped(buckets, mode)) == 0
  {
    hide Models, LabelOf, OfModel;
    GroupsCoverAll(members, buckets, mode);
    assert Models(members) == [];
  }

  lemma {:induction false} CountedIsSize(members: seq<Member>, p: Member -> bool)
    ensures Counted(members, p) == |set i | 0 <= i < |members| && p(members[i])|
  {
    if members != [] {
      var n := |members| - 1;
      CountedIsSize(members[..n], p);
      var front := set i | 0 <= i < n && p(members[..n][i]);
      var all := set i | 0 <= i < |members| && p(members[i]);
      assert all == front + if p(members[n]) then {n} else {};
    }
  }

  /** How many of the members fall under a label, and under any. */
  function Under(ms: seq<Member>, buckets: seq<Bucket>, mode: Mode, x: string): nat {
    |set i | 0 <= i < |ms| && LabelOf(ms[i], buckets, mode) == Some(x)|
  }

  function UnderAny(ms: seq<Member>, buckets: seq<Bucket>, mode: Mode): nat {
    |set i | 0 <= i < |ms| && LabelOf(ms[i], buckets, mode).Some?|
  }

  lemma {:induction false} SumIsCount(ms: seq<Member>, f: Member -> real, p: Member -> bool)
    requires forall m :: f(m) == if p(m) then 1.0 else 0.0
    ensures SumOf(ms, f) == Counted(ms, p) as real
  {
    if ms != [] {
      var n := |ms| - 1;
      SumIsCount(ms[..n], f, p);
      SumSnoc(ms[..n], ms[n], f);
      assert ms == ms[..n] + [ms[n]];
    }
  }

  /** A model alone gives a label the share of its valid members in some bucket that fall under it. */
  lemma AloneIsShare(members: seq<Member>, buckets: seq<Bucket>, mode: Mode, x: string, model: string)
    requires model in Models(members)
    ensures var ms := OfModel(members, model);
      Under(ms, buckets, mode, x) as real
        == RecordedAlone(members, buckets, mode, x)(model) * UnderAny(ms, buckets, mode) as real
  {
    hide Models, RecordedAlone, SumOf, OfModel, LabelOf, Under, UnderAny, Hit, Mapped;
    AloneShares(members, buckets, mode, x, model);
    SumIsUnder(OfModel(members, model), buckets, mode, x);
    SumIsUnderAny(OfModel(members, model), buckets, mode);
  }

  lemma SumIsUnder(ms: seq<Member>, buckets: seq<Bucket>, mode: Mode, x: string)
    ensures SumOf(ms, Hit(buckets, mode, x)) == Under(ms, buckets, mode, x) as real
  {
    hide SumOf, LabelOf, Counted;
    var under := (m: Member) => LabelOf(m, buckets, mode) == Some(x);
    SumIsCount(ms, Hit(buckets, mode, x), under);
    CountedIsSize(ms, under);
    assert (set i | 0 <= i < |ms| && under(ms[i])) == (set i | 0 <= i < |ms| && LabelOf(ms[i], buckets, mode) == Some(x));
  }

  lemma SumIsUnderAny(ms: seq<Member>, buckets: seq<Bucket>, mode: Mode)
    ensures SumOf(ms, Mapped(buckets, mode)) == UnderAny(ms, buckets, mode) as real
  {
    hide SumOf, LabelOf, Counted;
    var any := (m: Member) => LabelOf(m, buckets, mode).Some?;
    SumIsCount(ms, Mapped(buckets, mode), any);
    CountedIsSize(ms, any);
    assert (set i | 0 <= i < |ms| && any(ms[i])) == (set i | 0 <= i < |ms| && LabelOf(ms[i], buckets, mode).Some?);
  }

  lemma AloneShares(members: seq<Member>, buckets: seq<Bucket>, mode: Mode, x: string, model: string)
    requires model in Models(members)
    ensures var ms := OfModel(members, model);
      SumOf(ms, Hit(buckets, mode, x))
        == RecordedAlone(members, buckets, mode, x)(model) * SumOf(ms, Mapped(buckets, mode))
  {
    hide Models, Pooled, SumOf, Hit, Mapped, Rows, OfModel, Fraction, Times, ProbabilityOf;
    AloneModels(members, model);
    AloneNormal(members, model);
    RecordedIsPooled(Rows(members, model), buckets, mode, map[], x);
    AloneScaled(members, buckets, mode, x, model);
    var ms := OfModel(members, model);
    FractionTotal(ms, Hit(buckets, mode, x));
    FractionTotal(ms, Mapped(buckets, mode));
    ShareScaled(Fraction(ms, Hit(buckets, mode, x)), Fraction(ms, Mapped(buckets, mode)),
      RecordedAlone(members, buckets, mode, x)(model), |ms| as real);
  }

  lemma FractionTotal(ms: seq<Member>, f: Member -> real)
    ensures SumOf(ms, f) == Fraction(ms, f) * |ms| as real
  {
    if ms != [] {
      assert SumOf(ms, f) / |ms| as real * |ms| as real == SumOf(ms, f);
    }
  }

  lemma ShareScaled(hit: real, mapped: real, share: real, n: real)
    requires hit == Times(mapped, share)
    ensures hit * n == share * (mapped * n)
  {
  }

  // ---- The loops ----

  /** What the groups of the given models hold. */
  function GroupTotal(models: seq<string>, members: seq<Member>, p: Member -> bool): nat {
    if models == [] then 0
    else
      GroupTotal(models[..|models| - 1], members, p) + Counted(OfModel(members, models[|models| - 1]), p)
  }

  lemma CountedStep(front: seq<Member>, last: Member, model: string, p: Member -> bool)
    ensures Counted(OfModel(front + [last], model), p)
      == Counted(OfModel(front, model), p) + if last.Valid() && last.model == model && p(last) then 1 else 0
  {
    var g := OfModel(front, model);
    assert (front + [last])[..|front|] == front;
    assert (g + [last])[..|g|] == g;
    assert g + [] == g;
  }

  lemma {:induction false} GroupTotalStep(models: seq<string>, front: seq<Member>, last: Member, p: Member -> bool)
    requires forall i, j :: 0 <= i < j < |models| ==> models[i] != models[j]
    ensures GroupTotal(models, front + [last], p)
      == GroupTotal(models, front, p) + if last.Valid() && last.model in models && p(last) then 1 else 0
  {
    if models != [] {
      var model := models[|models| - 1];
      hide OfModel, Counted;
      GroupTotalStep(models[..|models| - 1], front, last, p);
      CountedStep(front, last, model, p);
      assert models == models[..|models| - 1] + [model];
    }
  }

  /** The groups of the valid models hold every valid member once. */
  lemma {:induction false} GroupsCover(models: seq<string>, members: seq<Member>, p: Member -> bool)
    requires forall i, j :: 0 <= i < j < |models| ==> models[i] != models[j]
    requires forall m :: m in members && p(m) ==> m.Valid() && m.model in models
    ensures GroupTotal(models, members, p) == Counted(members, p)
  {
    if members == [] {
      NoGroups(models, p);
    } else {
      var front, last := members[..|members| - 1], members[|members| - 1];
      assert members == front + [last];
      GroupsCover(models, front, p);
      GroupTotalStep(models, front, last, p);
    }
  }

  lemma {:induction false} NoGroups(models: seq<string>, p: Member -> bool)
    ensures GroupTotal(models, [], p) == 0
  {
    if models != [] {
      NoGroups(models[..|models| - 1], p);
    }
  }

  lemma GroupStep(members: seq<Member>, i: nat)
    requires i < |members|
    ensures var front, m := members[..i], members[i];
      && Models(members[..i + 1]) == Models(front) + (if m.Valid() && m.model !in Models(front) then [m.model] else [])
      && (forall model ::
        OfModel(members[..i + 1], model) == OfModel(front, model) + if m.Valid() && m.model == model then [m] else [])
      && Counted(members[..i + 1], IsValid()) == Counted(front, IsValid()) + if m.Valid() then 1 else 0
  {
    assert members[..i + 1][..i] == members[..i];
  }

  /** `valid_by_model`, with its keys in insertion order. */
  method GroupByModel(members: seq<Member>)
    returns (order: seq<string>, byModel: map<string, seq<Member>>, excluded: nat)
    ensures order == Models(members)
    ensures byModel.Keys == set model | model in order
    ensures forall model :: model in byModel ==> byModel[model] == OfModel(members, model)
    ensures excluded + Counted(members, IsValid()) == |members|
  {
    hide Models, OfModel, Counted;
    order, byModel, excluded := [], map[], 0;
    assert Models([]) == [] by { NothingGrouped(); }
    assert Counted([], IsValid()) == 0 by { NothingGrouped(); }
    for i := 0 to |members|
      invariant order == Models(members[..i])
      invariant byModel.Keys == set model | model in order
      invariant forall model :: model in byModel ==> byModel[model] == OfModel(members[..i], model)
      invariant excluded + Counted(members[..i], IsValid()) == i
    {
      var m := members[i];
      GroupStep(members, i);
      if !m.Valid() {
        excluded := excluded + 1;
      } else {
        if m.model !in byModel {
          order := order + [m.model];
          byModel := byModel[m.model := [m]];
        } else {
          byModel := byModel[m.model := byModel[m.model] + [m]];
        }
      }
    }
    assert members[..|members|] == members;
  }

  lemma NothingGrouped()
    ensures Models([]) == [] && Counted([], IsValid()) == 0
  {
  }

  /** The inner loop: every mapped member of one model adds its weight to its label. */
  method AddGroup(
    group: seq<Member>, buckets: seq<Bucket>, mode: Mode, memberWeight: real, probabilities: map<string, real>)
    returns (added: map<string, real>, mapped: nat)
    requires forall m :: m in group ==> m.Valid()
    requires probabilities.Keys == set x | x in Labels(buckets)
    ensures added.Keys == probabilities.Keys
    ensures forall x :: x in added ==> added[x] == probabilities[x] + Times(memberWeight, SumOf(group, Hit(buckets, mode, x)))
    ensures mapped == Counted(group, IsMapped(buckets, mode))
  {
    hide LabelOf, Labels, SumOf, Times, Counted;
    added, mapped := probabilities, 0;
    EmptyGroup(buckets, mode, memberWeight);
    for j := 0 to |group|
      invariant added.Keys == probabilities.Keys
      invariant forall x :: x in added ==>
        added[x] == probabilities[x] + Times(memberWeight, SumOf(group[..j], Hit(buckets, mode, x)))
      invariant mapped == Counted(group[..j], IsMapped(buckets, mode))
    {
      var at := LabelOf(group[j], buckets, mode);
      MemberStep(group, j, buckets, mode, memberWeight);
      if at.Some? {
        var x := at.value;
        added := added[x := added[x] + memberWeight];
        mapped := mapped + 1;
      }
    }
    assert group[..|group|] == group;
  }

  lemma EmptyGroup(buckets: seq<Bucket>, mode: Mode, w: real)
    ensures forall x :: Times(w, SumOf([], Hit(buckets, mode, x))) == 0.0
    ensures Counted([], IsMapped(buckets, mode)) == 0
  {
    Units(w);
  }

  lemma MemberStep(group: seq<Member>, j: nat, buckets: seq<Bucket>, mode: Mode, w: real)
    requires j < |group| && group[j].Valid()
    ensures forall x ::
      Times(w, SumOf(group[..j + 1], Hit(buckets, mode, x)))
        == Times(w, SumOf(group[..j], Hit(buckets, mode, x)))
          + if LabelOf(group[j], buckets, mode) == Some(x) then w else 0.0
    ensures Counted(group[..j + 1], IsMapped(buckets, mode))
      == Counted(group[..j], IsMapped(buckets, mode)) + if LabelOf(group[j], buckets, mode).Some? then 1 else 0
  {
    hide LabelOf, SumOf, Times;
    assert group[..j + 1] == group[..j] + [group[j]];
    assert group[..j + 1][..j] == group[..j];
    Units(w);
    forall x
      ensures Times(w, SumOf(group[..j + 1], Hit(buckets, mode, x)))
        == Times(w, SumOf(group[..j], Hit(buckets, mode, x)))
          + if LabelOf(group[j], buckets, mode) == Some(x) then w else 0.0
    {
      var f := Hit(buckets, mode, x);
      SumSnoc(group[..j], group[j], f);
      Distribute(SumOf(group[..j], f), f(group[j]), w);
    }
  }

  lemma WeightPerMember(w: real, total: real, n: real)
    requires n != 0.0
    ensures Times(w / n, total) == Times(w, total / n)
  {
  }

  function Recorded(probabilities: map<string, real>): string -> real {
    x => if x in probabilities then probabilities[x] else 0.0
  }

  /** The outer loop: every model in turn, its normalized weight shared equally by its members. */
  method PoolGroups(
    members: seq<Member>, buckets: seq<Bucket>, mode: Mode, weights: map<string, real>, order: seq<string>,
    byModel: map<string, seq<Member>>, normal: map<string, real>)
    returns (probabilities: map<string, real>, valid: nat, unmapped: nat)
    requires order == Models(members)
    requires byModel.Keys == normal.Keys == set model | model in order
    requires forall model :: model in byModel ==> byModel[model] == OfModel(members, model)
    requires forall model :: model in normal ==> normal[model] == Normal(members, weights, model)
    ensures probabilities.Keys == set x | x in Labels(buckets)
    ensures forall x :: x in probabilities ==> probabilities[x] == MassOf(order, members, buckets, mode, weights)(x)
    ensures valid == GroupTotal(order, members, IsMapped(buckets, mode))
    ensures valid + unmapped == GroupTotal(order, members, IsValid())
  {
    hide Models, OfModel, Counted, Labels, LabelOf, SumOf, Times, Hit, Mapped, IsMapped, Normal, MassOf;
    probabilities := map x | x in Labels(buckets) :: 0.0;
    valid, unmapped := 0, 0;
    NoMass(members, buckets, mode, weights);
    for i := 0 to |order|
      invariant probabilities.Keys == set x | x in Labels(buckets)
      invariant forall x :: x in probabilities ==>
        probabilities[x] == MassOf(order[..i], members, buckets, mode, weights)(x)
      invariant valid == GroupTotal(order[..i], members, IsMapped(buckets, mode))
      invariant valid + unmapped == GroupTotal(order[..i], members, IsValid())
    {
      var model := order[i];
      var group := byModel[model];
      assert model in Models(members) && group != [];
      var mapped;
      ghost var before := probabilities;
      var memberWeight := normal[model] / |group| as real;
      probabilities, mapped := AddGroup(group, buckets, mode, memberWeight, probabilities);
      MassStep(order, i, members, buckets, mode, weights);
      AllValid(group);
      forall x | x in probabilities
        ensures probabilities[x] == MassOf(order[..i + 1], members, buckets, mode, weights)(x)
      {
        WeightPerMember(normal[model], SumOf(group, Hit(buckets, mode, x)), |group| as real);
      }
      valid, unmapped := valid + mapped, unmapped + (|group| - mapped);
    }
    assert order[..|order|] == order;
  }

  lemma RecordedSum(
    probabilities: map<string, real>, members: seq<Member>, buckets: seq<Bucket>, mode: Mode,
    weights: map<string, real>)
    requires probabilities.Keys == set x | x in Labels(buckets)
    requires forall x :: x in probabilities ==>
      probabilities[x] == MassOf(Models(members), members, buckets, mode, weights)(x)
    ensures SumOf(Labels(buckets), Recorded(probabilities)) == Mass(members, weights, Mapped(buckets, mode))
  {
    hide Models, Labels, MassOf, SumOf, Part;
    MassesAddUp(Models(members), members, buckets, mode, weights);
    SumCongruent(Labels(buckets), Recorded(probabilities), MassOf(Models(members), members, buckets, mode, weights));
  }

  /** The final division by the mapped weight, when there is any. */
  method Normalize(
    members: seq<Member>, buckets: seq<Bucket>, mode: Mode, weights: map<string, real>,
    probabilities: map<string, real>) returns (normalized: map<string, real>)
    requires probabilities.Keys == set x | x in Labels(buckets)
    requires forall x :: x in probabilities ==>
      probabilities[x] == MassOf(Models(members), members, buckets, mode, weights)(x)
    ensures normalized == map x | x in Labels(buckets) :: Pooled(members, buckets, mode, weights, x)
  {
    hide Models, Labels, SumOf, Part;
    RecordedSum(probabilities, members, buckets, mode, weights);
    var sum := SumOf(Labels(buckets), Recorded(probabilities));
    normalized := probabilities;
    if sum != 0.0 {
      normalized := map x | x in probabilities :: probabilities[x] / sum;
    }
  }

  /** The loops of `calculate_probabilities` compute the specification. */
  method CalculateProbabilities(members: seq<Member>, buckets: seq<Bucket>, mode: Mode, weights: map<string, real>)
    returns (r: Result<Forecast, ForecastError>)
    ensures r == Calculate(members, buckets, mode, weights)
  {
    hide Models, OfModel, Counted, Labels, LabelOf, SumOf, Times, Hit, Mapped, IsMapped, GroupTotal, Pooled, MassOf;
    var order, byModel, excluded := GroupByModel(members);
    if order == [] {
      NoneValid(members);
      return Ok(Forecast(0, excluded, map x | x in Labels(buckets) :: 0.0, map[]));
    }
    var total := SumOf(order, WeightOf(weights));
    if total <= 0.0 {
      return Err(NonPositiveWeights);
    }
    var normal := map model | model in order :: Weight(weights, model) / total;
    var probabilities, valid, unmapped := PoolGroups(members, buckets, mode, weights, order, byModel, normal);
    GroupsCoverAll(members, buckets, mode);
    probabilities := Normalize(members, buckets, mode, weights, probabilities);
    assert total == RawTotal(members, weights);
    assert valid == Counted(members, IsMapped(buckets, mode));
    assert excluded + unmapped == |members| - valid;
    assert normal == map model | model in Models(members) :: Normal(members, weights, model);
    r := Ok(Forecast(valid, excluded + unmapped, probabilities, normal));
  }

  lemma NoneValid(members: seq<Member>)
    requires Models(members) == []
    ensures Counted(members, IsValid()) == 0
  {
    hide Models;
    if members != [] {
      GroupsCoverAllValid(members);
      assert Models(members) == [];
    }
  }

  lemma GroupsCoverAllValid(members: seq<Member>)
    ensures GroupTotal(Models(members), members, IsValid()) == Counted(members, IsValid())
  {
    forall m | m in members && m.Valid() ensures m.model in Models(members) {
      ValidHasModel(members, m);
    }
    GroupsCover(Models(members), members, IsValid());
  }

  lemma {:induction false} ValidHasModel(members: seq<Member>, m: Member)
    requires m in members && m.Valid()
    ensures m in OfModel(members, m.model)
  {
    if m != members[|members| - 1] {
      ValidHasModel(members[..|members| - 1], m);
    }
  }

  lemma GroupsCoverAll(members: seq<Member>, buckets: seq<Bucket>, mode: Mode)
    ensures GroupTotal(Models(members), members, IsValid()) == Counted(members, IsValid())
    ensures GroupTotal(Models(members), members, IsMapped(buckets, mode)) == Counted(members, IsMapped(buckets, mode))
  {
    hide Models, OfModel, LabelOf;
    GroupsCoverAllValid(members);
    forall m | m in members && m.Valid() ensures m.model in Models(members) {
      ValidHasModel(members, m);
    }
    GroupsCover(Models(members), members, IsMapped(buckets, mode));
  }

  lemma {:induction false} AllValid(group: seq<Member>)
    requires forall m :: m in group ==> m.Valid()
    ensures Counted(group, IsValid()) == |group|
  {
    if group != [] {
      AllValid(group[..|group| - 1]);
    }
  }

  lemma NoMass(members: seq<Member>, buckets: seq<Bucket>, mode: Mode, weights: map<string, real>)
    ensures forall x :: MassOf([], members, buckets, mode, weights)(x) == 0.0
  {
  }

  lemma MassStep(
    order: seq<string>, i: nat, members: seq<Member>, buckets: seq<Bucket>, mode: Mode, weights: map<string, real>)
    requires i < |order| && OfModel(members, order[i]) != []
    ensures forall x ::
      MassOf(order[..i + 1], members, buckets, mode, weights)(x)
        == MassOf(order[..i], members, buckets, mode, weights)(x)
          + Times(Normal(members, weights, order[i]),
            SumOf(OfModel(members, order[i]), Hit(buckets, mode, x)) / |OfModel(members, order[i])| as real)
    ensures forall p ::
      GroupTotal(order[..i + 1], members, p)
        == GroupTotal(order[..i], members, p) + Counted(OfModel(members, order[i]), p)
  {
    hide OfModel, SumOf, Normal, Times, Hit;
    assert order[..i + 1] == order[..i] + [order[i]];
    assert order[..i + 1][..i] == order[..i];
    forall x
      ensures MassOf(order[..i + 1], members, buckets, mode, weights)(x)
        == MassOf(order[..i], members, buckets, mode, weights)(x)
          + Times(Normal(members, weights, order[i]),
            SumOf(OfModel(members, order[i]), Hit(buckets, mode, x)) / |OfModel(members, order[i])| as real)
    {
      SumSnoc(order[..i], order[i], Part(members, weights, Hit(buckets, mode, x)));
    }
  }
}
