/**
  Exponentially weighted coefficients and factor weights of backend/src/backtest/ic_weight_calculator.py.

  A Python dictionary that the calculator only builds and reads in insertion order is a sequence of
  (name, value) pairs here.
 */
module FactorWeights {
  import opened Common
  import opened RealSums
  import opened InformationCoefficient

  type Named<V> = seq<(string, V)>

  // --------------------------------------------------------------------------------------------
  // Exponential weights
  // --------------------------------------------------------------------------------------------

  function Power(b: real, n: nat): real {
    if n == 0 then 1.0 else b * Power(b, n - 1)
  }

  function Alpha(span: nat): real {
    2.0 / (span as real + 1.0)
  }

  function RawWeight(alpha: real, age: nat): real {
    alpha * Power(1.0 - alpha, age)
  }

  /** Oldest first: the last element has age zero. */
  function RawWeights(alpha: real, n: nat): (ws: seq<real>)
    ensures |ws| == n
  {
    seq(n, i requires 0 <= i < n => RawWeight(alpha, n - 1 - i))
  }

  function Normalise(ws: seq<real>): (ns: seq<real>)
    requires Sum(ws) != 0.0
    ensures |ns| == |ws|
  {
    seq(|ws|, i requires 0 <= i < |ws| => ws[i] / Sum(ws))
  }

  /** The span in force: the configured one, or the window length when none (or zero) is configured. */
  function EffectiveSpan(configured: Option<nat>, n: nat): nat {
    if configured.Some? && configured.value != 0 then configured.value else n
  }

  function EwmaWeights(span: nat, n: nat): (ws: seq<real>)
    requires span >= 2 && n > 0
    ensures |ws| == n
  {
    RawWeightsPositive(span, n);
    Normalise(RawWeights(Alpha(span), n))
  }

  lemma AlphaRange(span: nat)
    requires span >= 2
    ensures 0.0 < Alpha(span) < 1.0
  {
  }

  lemma {:induction false} PowerPositive(b: real, n: nat)
    requires b > 0.0
    ensures Power(b, n) > 0.0
  {
    if n > 0 {
      PowerPositive(b, n - 1);
      ProductPositive(b, Power(b, n - 1));
    }
  }

  lemma RawWeightPositive(span: nat, age: nat)
    requires span >= 2
    ensures RawWeight(Alpha(span), age) > 0.0
  {
    AlphaRange(span);
    PowerPositive(1.0 - Alpha(span), age);
    ProductPositive(Alpha(span), Power(1.0 - Alpha(span), age));
  }

  lemma RawWeightStep(alpha: real, age: nat)
    ensures RawWeight(alpha, age + 1) == (1.0 - alpha) * RawWeight(alpha, age)
  {
    assert Power(1.0 - alpha, age + 1) == (1.0 - alpha) * Power(1.0 - alpha, age);
    Reassociate(alpha, 1.0 - alpha, Power(1.0 - alpha, age));
  }

  lemma Reassociate(x: real, y: real, z: real)
    ensures x * (y * z) == y * (x * z)
  {
  }

  lemma RawWeightsPositive(span: nat, n: nat)
    requires span >= 2 && n > 0
    ensures Positive(RawWeights(Alpha(span), n))
    ensures Sum(RawWeights(Alpha(span), n)) > 0.0
  {
    hide Sum, RawWeight, Alpha;
    var ws := RawWeights(Alpha(span), n);
    forall i | 0 <= i < n
      ensures ws[i] > 0.0
    {
      RawWeightPositive(span, n - 1 - i);
    }
    SumNonNegative(ws);
    assert ws[0] > 0.0;
  }

  predicate Shrinks(alpha: real, older: real, newer: real) {
    older == (1.0 - alpha) * newer && older < newer
  }

  /** Every step back in time shrinks the weight by `1 - alpha`. */
  predicate Decays(alpha: real, ws: seq<real>) {
    forall i :: 0 <= i < |ws| - 1 ==> Shrinks(alpha, ws[i], ws[i + 1])
  }

  /** Normalised weights are positive, sum to one, and decay. */
  lemma EwmaWeightsAreDistribution(span: nat, n: nat)
    requires span >= 2 && n > 0
    ensures var ws := EwmaWeights(span, n);
            Positive(ws) && Sum(ws) == 1.0 && Decays(Alpha(span), ws)
  {
    hide Sum, RawWeight, RawWeights, Alpha, Decays, Normalise;
    var raw := RawWeights(Alpha(span), n);
    RawWeightsPositive(span, n);
    RawWeightsDecay(span, n);
    NormalisedSumsToOne(raw);
    AlphaRange(span);
    NormalisedDecays(Alpha(span), raw);
  }

  lemma RawWeightsDecay(span: nat, n: nat)
    requires span >= 2
    ensures Decays(Alpha(span), RawWeights(Alpha(span), n))
  {
    hide RawWeight, Alpha, Shrinks;
    var ws := RawWeights(Alpha(span), n);
    forall i | 0 <= i < n - 1
      ensures Shrinks(Alpha(span), ws[i], ws[i + 1])
    {
      RawWeightShrinks(span, n - 2 - i);
    }
  }

  lemma RawWeightShrinks(span: nat, age: nat)
    requires span >= 2
    ensures Shrinks(Alpha(span), RawWeight(Alpha(span), age + 1), RawWeight(Alpha(span), age))
  {
    hide RawWeight, Alpha;
    AlphaRange(span);
    RawWeightStep(Alpha(span), age);
    RawWeightPositive(span, age);
    ProductPositive(Alpha(span), RawWeight(Alpha(span), age));
  }

  lemma NormalisedDecays(alpha: real, raw: seq<real>)
    requires alpha > 0.0 && Positive(raw) && Sum(raw) > 0.0 && Decays(alpha, raw)
    ensures Decays(alpha, Normalise(raw))
  {
    hide Sum, Shrinks;
    forall i | 0 <= i < |raw| - 1
      ensures Shrinks(alpha, Normalise(raw)[i], Normalise(raw)[i + 1])
    {
      ShrinkingStep(alpha, raw[i], raw[i + 1], Sum(raw));
    }
  }

  lemma NormalisedSumsToOne(raw: seq<real>)
    requires Positive(raw) && Sum(raw) > 0.0
    ensures Positive(Normalise(raw)) && Sum(Normalise(raw)) == 1.0
  {
    hide Sum;
    var total := Sum(raw);
    forall i | 0 <= i < |raw|
      ensures Normalise(raw)[i] > 0.0 && Normalise(raw)[i] == Scale(1.0 / total, raw)[i]
    {
      QuotientPositive(raw[i], total);
    }
    assert Normalise(raw) == Scale(1.0 / total, raw);
    SumScale(1.0 / total, raw);
  }

  lemma ShrinkingStep(alpha: real, older: real, newer: real, total: real)
    requires alpha > 0.0 && newer > 0.0 && total > 0.0
    requires Shrinks(alpha, older, newer)
    ensures Shrinks(alpha, older / total, newer / total)
  {
    var u, v := older / total, newer / total;
    assert u * total == older && v * total == newer;
    QuotientPositive(newer, total);
    ProductPositive(alpha, v);
    assert (u - (1.0 - alpha) * v) * total == 0.0;
  }

  // --------------------------------------------------------------------------------------------
  // _calculate_ewma_ic_from_window
  // --------------------------------------------------------------------------------------------

  function EwmaIc(sqrt: real -> real, configured: Option<nat>, xs: seq<real>, ys: seq<real>): Result<real, IcError>
    requires IsSqrt(sqrt)
  {
    var span := EffectiveSpan(configured, |xs|);
    if |xs| > 0 && span == 1 then
      Failure(ZeroToThePowerZero)
    else if |xs| != |ys| then
      Failure(LengthMismatch)
    else if |xs| == 0 then
      Success(0.0)
    else
      EwmaWeightsAreDistribution(span, |xs|);
      Success(EwmaCorrelation(sqrt, EwmaWeights(span, |xs|), xs, ys))
  }

  function EwmaCorrelation(sqrt: real -> real, ws: seq<real>, xs: seq<real>, ys: seq<real>): real
    requires IsSqrt(sqrt)
    requires |ws| == |xs| == |ys| && NonNegative(ws)
  {
    WeightedCorrelation(sqrt, ws, Deviations(xs, Dot(ws, xs)), Deviations(ys, Dot(ws, ys)))
  }

  /** The loop that collects the weights oldest first, then normalises them and correlates. */
  method CalculateEwmaIcFromWindow(sqrt: real -> real, configured: Option<nat>, xs: seq<real>, ys: seq<real>)
      returns (r: Result<real, IcError>)
    requires IsSqrt(sqrt)
    ensures r == EwmaIc(sqrt, configured, xs, ys)
  {
    hide RawWeight, Alpha, Sum;
    var n := |xs|;
    var span := EffectiveSpan(configured, n);
    var alpha := Alpha(span);
    var weights: seq<real> := [];
    var i := 0;
    while i < n
      invariant 0 <= i <= n
      invariant i == n && n > 0 ==> span != 1
      invariant weights == RawWeights(alpha, n)[..i]
    {
      var age := n - 1 - i;
      if span == 1 && age == 0 {
        return Failure(ZeroToThePowerZero);
      }
      weights := weights + [RawWeight(alpha, age)];
      i := i + 1;
    }
    assert weights == RawWeights(alpha, n);
    if |xs| != |ys| {
      return Failure(LengthMismatch);
    }
    if n == 0 {
      return Success(0.0);
    }
    RawWeightsPositive(span, n);
    EwmaWeightsAreDistribution(span, n);
    weights := Normalise(weights);
    r := Success(EwmaCorrelation(sqrt, weights, xs, ys));
  }

  /** Raised exactly for unequal lengths or an effective span of one, the span first; otherwise in [-1, 1], and zero on
      no data. */
  lemma EwmaIcBounded(sqrt: real -> real, configured: Option<nat>, xs: seq<real>, ys: seq<real>)
    requires IsSqrt(sqrt)
    ensures var r := EwmaIc(sqrt, configured, xs, ys);
            && (r.Success? <==> |xs| == |ys| && (|xs| > 0 ==> EffectiveSpan(configured, |xs|) >= 2))
            && (r == Failure(ZeroToThePowerZero) <==> |xs| > 0 && EffectiveSpan(configured, |xs|) == 1)
            && (r.Failure? && r.error != ZeroToThePowerZero ==> r.error == LengthMismatch)
            && (r.Success? ==> -1.0 <= r.value <= 1.0 && (xs == [] ==> r.value == 0.0))
  {
    var span := EffectiveSpan(configured, |xs|);
    if |xs| == |ys| > 0 && span >= 2 {
      var ws := EwmaWeights(span, |xs|);
      EwmaWeightsAreDistribution(span, |xs|);
      CorrelationBounded(sqrt, ws, Deviations(xs, Dot(ws, xs)), Deviations(ys, Dot(ws, ys)));
    }
  }

  /** The weighted coefficient is perfect exactly when the dependence is affine, whatever the span. */
  lemma EwmaIcPerfectIffAffine(sqrt: real -> real, configured: Option<nat>, xs: seq<real>, ys: seq<real>, sign: real)
    requires IsSqrt(sqrt)
    requires |xs| == |ys| > 0 && EffectiveSpan(configured, |xs|) >= 2
    requires sign == 1.0 || sign == -1.0
    ensures EwmaIc(sqrt, configured, xs, ys) == Success(sign)
            <==> !Constant(xs) && exists k, c :: sign * k > 0.0 && Affine(xs, ys, k, c)
  {
    hide Sum, WeightedCorrelation, Dot;
    var span := EffectiveSpan(configured, |xs|);
    var ws := EwmaWeights(span, |xs|);
    EwmaWeightsAreDistribution(span, |xs|);
    var mx, my := Dot(ws, xs), Dot(ws, ys);
    forall k, c | Affine(xs, ys, k, c)
      ensures my == k * mx + c
    {
      DotAffine(ws, xs, ys, k, c);
    }
    if Constant(xs) {
      assert Affine(xs, xs, 0.0, xs[0]);
      DotAffine(ws, xs, xs, 0.0, xs[0]);
    }
    PerfectIffAffine(sqrt, ws, xs, ys, mx, my, sign);
  }

  /** `older : newer` is `(span - 1) : (span + 1)`. */
  predicate InRatio(span: nat, older: real, newer: real) {
    (span as real + 1.0) * older == (span as real - 1.0) * newer
  }

  /** The exponential weights of a span: they sum to one, and neighbours are in that ratio. */
  predicate IsEwma(span: nat, ws: seq<real>) {
    Sum(ws) == 1.0 && forall i :: 0 <= i < |ws| - 1 ==> InRatio(span, ws[i], ws[i + 1])
  }

  function Older(b: real, newer: real): real {
    b * newer
  }

  lemma DecayFactor(span: nat, older: real, newer: real)
    requires span >= 2
    ensures InRatio(span, older, newer) <==> older == Older(1.0 - Alpha(span), newer)
  {
    var n, b := span as real + 1.0, 1.0 - Alpha(span);
    assert n * Alpha(span) == 2.0;
    assert n * (b * newer) == (span as real - 1.0) * newer;
  }

  /** Two lists that decay by the same factor are in proportion. */
  lemma {:induction false} DecayingInProportion(b: real, u: seq<real>, v: seq<real>, i: nat)
    requires i < |u| == |v|
    requires forall k :: 0 <= k < |u| - 1 ==> u[k] == Older(b, u[k + 1]) && v[k] == Older(b, v[k + 1])
    ensures v[|v| - 1] * u[i] == u[|u| - 1] * v[i]
    ensures u[|u| - 1] == v[|v| - 1] ==> u[i] == v[i]
    decreases |u| - i
  {
    hide Older;
    if i < |u| - 1 {
      DecayingInProportion(b, u, v, i + 1);
      CommonFactor(b, u[i + 1], v[|v| - 1], v[i + 1], u[|u| - 1]);
    }
  }

  lemma CommonFactor(b: real, p: real, q: real, r: real, s: real)
    requires q * p == s * r
    ensures q * Older(b, p) == s * Older(b, r)
  {
    assert q * (b * p) == b * (q * p);
  }

  lemma DecayingEqual(b: real, ws: seq<real>, u: seq<real>)
    requires |ws| == |u| > 0 && Sum(ws) == 1.0 && Sum(u) == 1.0
    requires forall k :: 0 <= k < |ws| - 1 ==> ws[k] == Older(b, ws[k + 1]) && u[k] == Older(b, u[k + 1])
    ensures ws == u
  {
    hide Sum, Older, Scale;
    var n, p, q := |ws|, ws[|ws| - 1], u[|u| - 1];
    forall i | 0 <= i < n
      ensures Scale(q, ws)[i] == Scale(p, u)[i]
    {
      DecayingInProportion(b, ws, u, i);
      ScaleAt(q, ws, i);
      ScaleAt(p, u, i);
    }
    assert Scale(q, ws) == Scale(p, u);
    SumScale(q, ws);
    SumScale(p, u);
    forall i | 0 <= i < n
      ensures ws[i] == u[i]
    {
      DecayingInProportion(b, ws, u, i);
    }
  }

  /** There is one such list of any length, and it is the calculator's. */
  lemma EwmaWeightsUnique(span: nat, ws: seq<real>)
    requires span >= 2 && |ws| > 0
    ensures IsEwma(span, ws) <==> ws == EwmaWeights(span, |ws|)
  {
    hide Sum, Alpha, InRatio, Older, EwmaWeights;
    var n, b, u := |ws|, 1.0 - Alpha(span), EwmaWeights(span, |ws|);
    CalculatorsWeightsDecay(span, n);
    if IsEwma(span, ws) {
      forall i | 0 <= i < n - 1
        ensures ws[i] == Older(b, ws[i + 1]) && u[i] == Older(b, u[i + 1])
      {
        DecayFactor(span, ws[i], ws[i + 1]);
        DecayFactor(span, u[i], u[i + 1]);
      }
      DecayingEqual(b, ws, u);
    }
  }

  lemma CalculatorsWeightsDecay(span: nat, n: nat)
    requires span >= 2 && n > 0
    ensures IsEwma(span, EwmaWeights(span, n))
  {
    hide Sum, Alpha, InRatio, EwmaWeights;
    var u := EwmaWeights(span, n);
    EwmaWeightsAreDistribution(span, n);
    forall i | 0 <= i < n - 1
      ensures InRatio(span, u[i], u[i + 1])
    {
      assert Shrinks(Alpha(span), u[i], u[i + 1]);
      DecayFactor(span, u[i], u[i + 1]);
    }
  }

  /** For all data and every span the weighted coefficient is Pearson's under those weights, written with weighted sums
      over the data alone. A span that is not configured, or zero, is the length of the window. */
  lemma EwmaIcIsPearson(sqrt: real -> real, configured: Option<nat>, xs: seq<real>, ys: seq<real>, ws: seq<real>)
    requires IsSqrt(sqrt)
    requires |xs| == |ys| == |ws| > 0
    requires var span := if configured == None || configured == Some(0) then |xs| else configured.value;
             span >= 2 && IsEwma(span, ws)
    ensures EwmaIc(sqrt, configured, xs, ys).Success?
    ensures IsPearsonOf(EwmaIc(sqrt, configured, xs, ys).value, 1.0,
                        WeightedDot(ws, xs, xs), WeightedDot(ws, ys, ys), WeightedDot(ws, xs, ys),
                        Dot(ws, xs), Dot(ws, ys))
  {
    hide Sum, Dot, WeightedDot, Correlation, IsPearsonOf, IsCentral, Alpha, IsEwma, EwmaWeights;
    var span := EffectiveSpan(configured, |xs|);
    assert Sum(ws) == 1.0 by { EwmaSumsToOne(span, ws); }
    EwmaWeightsUnique(span, ws);
    EwmaWeightsAreDistribution(span, |xs|);
    var mx, my := Dot(ws, xs), Dot(ws, ys);
    CentralMoment(ws, xs, xs, mx, mx);
    CentralMoment(ws, ys, ys, my, my);
    CentralMoment(ws, xs, ys, mx, my);
    var dx, dy := Deviations(xs, mx), Deviations(ys, my);
    WeightedSquares(ws, dx);
    WeightedSquares(ws, dy);
    CorrelationIsPearson(sqrt, 1.0, WeightedDot(ws, dx, dx), WeightedDot(ws, dy, dy), WeightedDot(ws, dx, dy),
                         WeightedDot(ws, xs, xs), WeightedDot(ws, ys, ys), WeightedDot(ws, xs, ys), mx, my);
  }

  lemma EwmaSumsToOne(span: nat, ws: seq<real>)
    requires IsEwma(span, ws)
    ensures Sum(ws) == 1.0
  {
  }

  // --------------------------------------------------------------------------------------------
  // Weights from coefficients
  // --------------------------------------------------------------------------------------------

  function Abs(x: real): real {
    if x < 0.0 then -x else x
  }

  function AbsValues(ics: Named<real>): (s: seq<real>)
    ensures |s| == |ics|
  {
    seq(|ics|, i requires 0 <= i < |ics| => Abs(ics[i].1))
  }

  function Values(m: Named<real>): (s: seq<real>)
    ensures |s| == |m|
  {
    seq(|m|, i requires 0 <= i < |m| => m[i].1)
  }

  function WeightsFromIc(ics: Named<real>): Result<Named<real>, IcError> {
    if |ics| == 0 then
      Failure(NoFactors)
    else
      var total := Sum(AbsValues(ics));
      if total == 0.0 then
        Success(seq(|ics|, i requires 0 <= i < |ics| => (ics[i].0, 1.0 / |ics| as real)))
      else
        Success(seq(|ics|, i requires 0 <= i < |ics| => (ics[i].0, Abs(ics[i].1) / total)))
  }

  /** One weight per factor, in order, each in [0, 1], summing to exactly one; in proportion to the absolute
      coefficients, or all equal when every coefficient is zero. */
  ghost predicate IsWeighting(ics: Named<real>, ws: Named<real>) {
    && |ws| == |ics| > 0
    && (forall i :: 0 <= i < |ics| ==> ws[i].0 == ics[i].0 && 0.0 <= ws[i].1 <= 1.0)
    && Sum(Values(ws)) == 1.0
    && (forall i, j :: 0 <= i < |ics| && 0 <= j < |ics| ==> ws[i].1 * Abs(ics[j].1) == ws[j].1 * Abs(ics[i].1))
    && ((forall i :: 0 <= i < |ics| ==> ics[i].1 == 0.0) ==> forall i :: 0 <= i < |ics| ==> ws[i].1 == ws[0].1)
  }

  lemma WeightsFromIcCorrect(ics: Named<real>)
    ensures WeightsFromIc(ics).Success? <==> |ics| > 0
    ensures |ics| > 0 ==> IsWeighting(ics, WeightsFromIc(ics).value)
  {
    if |ics| > 0 {
      hide Sum;
      var absolute := AbsValues(ics);
      var total := Sum(absolute);
      var ws := WeightsFromIc(ics).value;
      SumNonNegative(absolute);
      assert forall i :: 0 <= i < |ics| ==> 0.0 <= absolute[i] <= total && absolute[i] == Abs(ics[i].1);
      if total == 0.0 {
        EqualShares(ics, ws);
      } else {
        ProportionalShares(ics, ws, total);
      }
    }
  }

  lemma EqualShares(ics: Named<real>, ws: Named<real>)
    requires |ics| == |ws| > 0
    requires forall i :: 0 <= i < |ics| ==> ws[i] == (ics[i].0, 1.0 / |ics| as real) && ics[i].1 == 0.0
    ensures IsWeighting(ics, ws)
  {
    hide Sum;
    var n := |ics|;
    assert Values(ws) == Scale(1.0 / n as real, Ones(n));
    SumScale(1.0 / n as real, Ones(n));
    SumOnes(n);
  }

  lemma ProportionalShares(ics: Named<real>, ws: Named<real>, total: real)
    requires |ics| == |ws| > 0 && total > 0.0 && total == Sum(AbsValues(ics))
    requires forall i :: 0 <= i < |ics| ==> ws[i] == (ics[i].0, Abs(ics[i].1) / total) && Abs(ics[i].1) <= total
    ensures IsWeighting(ics, ws)
  {
    hide Sum, Abs, AbsValues, Values;
    assert forall i :: 0 <= i < |ics| ==> ws[i].0 == ics[i].0 && ws[i].1 == Abs(ics[i].1) / total;
    forall i | 0 <= i < |ics|
      ensures 0.0 <= ws[i].1 <= 1.0 && ws[i].1 * total == Abs(ics[i].1)
    {
      AbsNonNegative(ics[i].1);
      Share(Abs(ics[i].1), total);
    }
    SharesSumToOne(ics, ws, total);
    forall i, j | 0 <= i < |ics| && 0 <= j < |ics|
      ensures ws[i].1 * Abs(ics[j].1) == ws[j].1 * Abs(ics[i].1)
    {
      CrossShare(ws[i].1, ws[j].1, Abs(ics[i].1), Abs(ics[j].1), total);
    }
    if forall i :: 0 <= i < |ics| ==> ics[i].1 == 0.0 {
      assert forall i :: 0 <= i < |ics| ==> ws[i].1 == Abs(ics[i].1) / total == Abs(0.0) / total;
    }
  }

  lemma SharesSumToOne(ics: Named<real>, ws: Named<real>, total: real)
    requires |ics| == |ws| > 0 && total > 0.0 && total == Sum(AbsValues(ics))
    requires forall i :: 0 <= i < |ics| ==> ws[i].1 == Abs(ics[i].1) / total
    ensures Sum(Values(ws)) == 1.0
  {
    hide Sum, Abs, Scale;
    var scale := 1.0 / total;
    forall i | 0 <= i < |ics|
      ensures Values(ws)[i] == Scale(scale, AbsValues(ics))[i]
    {
      QuotientScales(Abs(ics[i].1), total);
      ScaleAt(scale, AbsValues(ics), i);
    }
    assert Values(ws) == Scale(scale, AbsValues(ics));
    SumScale(scale, AbsValues(ics));
    QuotientScales(total, total);
  }

  lemma QuotientScales(a: real, total: real)
    requires total > 0.0
    ensures a / total == 1.0 / total * a
    ensures total / total == 1.0
  {
  }

  lemma AbsNonNegative(x: real)
    ensures Abs(x) >= 0.0
  {
  }

  lemma Share(a: real, total: real)
    requires 0.0 <= a <= total && total > 0.0
    ensures 0.0 <= a / total <= 1.0
    ensures a / total == 1.0 / total * a
    ensures a / total * total == a
  {
  }

  lemma CrossShare(u: real, v: real, a: real, b: real, total: real)
    requires u * total == a && v * total == b
    ensures u * b == v * a
  {
  }

  // --------------------------------------------------------------------------------------------
  // Weights from history
  // --------------------------------------------------------------------------------------------

  /** Python's `xs[-k:]`, which is the whole list when `k` is zero. */
  function Slice(xs: seq<real>, k: nat): seq<real> {
    if k == 0 || k >= |xs| then xs else xs[|xs| - k..]
  }

  function Min(a: nat, b: nat): nat {
    if a <= b then a else b
  }

  function RollingIc(sqrt: real -> real, lookback: nat, xs: seq<real>, ys: seq<real>): Result<real, IcError>
    requires IsSqrt(sqrt)
  {
    if |xs| < lookback then Failure(InsufficientData) else CalculateIc(sqrt, Slice(xs, lookback), Slice(ys, lookback))
  }

  /** The body of the loop over factors. */
  function IcFromHistory(sqrt: real -> real, lookback: nat, factor: seq<real>, returns_: seq<real>):
      Result<real, IcError>
    requires IsSqrt(sqrt)
  {
    var aligned := Min(|factor|, |returns_|);
    var xs, ys := Slice(factor, aligned), Slice(returns_, aligned);
    if aligned >= lookback then
      RollingIc(sqrt, lookback, xs, ys)
    else if aligned >= 3 then
      CalculateIc(sqrt, xs, ys)
    else
      Success(0.0)
  }

  /** The coefficients of a prefix of the factors, or the first error met. */
  function HistoryIcs(sqrt: real -> real, lookback: nat, history: Named<seq<real>>, returns_: seq<real>, k: nat):
      Result<Named<real>, IcError>
    requires IsSqrt(sqrt)
    requires k <= |history|
  {
    if k == 0 then
      Success([])
    else
      match HistoryIcs(sqrt, lookback, history, returns_, k - 1)
      case Failure(e) => Failure(e)
      case Success(ics) =>
        match IcFromHistory(sqrt, lookback, history[k - 1].1, returns_)
        case Failure(e) => Failure(e)
        case Success(ic) => Success(ics + [(history[k - 1].0, ic)])
  }

  function WeightsFromHistory(sqrt: real -> real, lookback: nat, history: Named<seq<real>>, returns_: seq<real>):
      Result<Named<real>, IcError>
    requires IsSqrt(sqrt)
  {
    match HistoryIcs(sqrt, lookback, history, returns_, |history|)
    case Failure(e) => Failure(e)
    case Success(ics) => WeightsFromIc(ics)
  }

  method CalculateWeightsFromHistory(sqrt: real -> real, lookback: nat, history: Named<seq<real>>, returns_: seq<real>)
      returns (r: Result<Named<real>, IcError>)
    requires IsSqrt(sqrt)
    ensures r == WeightsFromHistory(sqrt, lookback, history, returns_)
  {
    hide IcFromHistory, WeightsFromIc;
    var ics: Named<real> := [];
    var i := 0;
    while i < |history|
      invariant 0 <= i <= |history|
      invariant HistoryIcs(sqrt, lookback, history, returns_, i) == Success(ics)
    {
      var ic := IcFromHistory(sqrt, lookback, history[i].1, returns_);
      if ic.Failure? {
        FirstErrorStands(sqrt, lookback, history, returns_, i + 1, |history|);
        return Failure(ic.error);
      }
      ics := ics + [(history[i].0, ic.value)];
      i := i + 1;
    }
    r := WeightsFromIc(ics);
  }

  lemma {:induction false} FirstErrorStands(sqrt: real -> real, lookback: nat, history: Named<seq<real>>,
                                            returns_: seq<real>, j: nat, k: nat)
    requires IsSqrt(sqrt)
    requires j <= k <= |history|
    requires HistoryIcs(sqrt, lookback, history, returns_, j).Failure?
    ensures HistoryIcs(sqrt, lookback, history, returns_, k) == HistoryIcs(sqrt, lookback, history, returns_, j)
  {
    if j < k {
      FirstErrorStands(sqrt, lookback, history, returns_, j, k - 1);
    }
  }

  /** Aligning, windowing and slicing amount to this: the coefficient of the most recent
      min(lookback, |factor|, |returns|) points of both series, or zero when those are fewer than three. */
  lemma IcFromHistoryIsRecentIc(sqrt: real -> real, lookback: nat, factor: seq<real>, returns_: seq<real>)
    requires IsSqrt(sqrt) && lookback >= 3
    ensures var n := Min(lookback, Min(|factor|, |returns_|));
            IcFromHistory(sqrt, lookback, factor, returns_)
            == if n < 3 then Success(0.0)
               else CalculateIc(sqrt, factor[|factor| - n..], returns_[|returns_| - n..])
  {
    var aligned := Min(|factor|, |returns_|);
    var n := Min(lookback, aligned);
    if aligned >= 3 {
      assert Slice(factor, aligned) == factor[|factor| - aligned..];
      assert Slice(returns_, aligned) == returns_[|returns_| - aligned..];
      if aligned >= lookback {
        assert Slice(Slice(factor, aligned), lookback) == factor[|factor| - n..];
        assert Slice(Slice(returns_, aligned), lookback) == returns_[|returns_| - n..];
      }
    }
  }

  lemma IcFromHistoryBounded(sqrt: real -> real, lookback: nat, factor: seq<real>, returns_: seq<real>)
    requires IsSqrt(sqrt) && lookback >= 3
    ensures var r := IcFromHistory(sqrt, lookback, factor, returns_); r.Success? && -1.0 <= r.value <= 1.0
  {
    hide IcFromHistory, CalculateIc;
    var n := Min(lookback, Min(|factor|, |returns_|));
    IcFromHistoryIsRecentIc(sqrt, lookback, factor, returns_);
    if n >= 3 {
      IcBounded(sqrt, factor[|factor| - n..], returns_[|returns_| - n..]);
    }
  }

  lemma {:induction false} HistoryIcsSucceed(sqrt: real -> real, lookback: nat, history: Named<seq<real>>,
                                             returns_: seq<real>, k: nat)
    requires IsSqrt(sqrt) && lookback >= 3 && k <= |history|
    ensures var r := HistoryIcs(sqrt, lookback, history, returns_, k);
            && r.Success? && |r.value| == k
            && forall i :: 0 <= i < k ==>
                 && r.value[i].0 == history[i].0
                 && IcFromHistory(sqrt, lookback, history[i].1, returns_) == Success(r.value[i].1)
                 && -1.0 <= r.value[i].1 <= 1.0
  {
    hide IcFromHistory;
    if k > 0 {
      HistoryIcsSucceed(sqrt, lookback, history, returns_, k - 1);
      IcFromHistoryBounded(sqrt, lookback, history[k - 1].1, returns_);
    }
  }

  /** For every non-empty family of histories of arbitrary lengths, no length or short-data error is reached, and
      the result weights the factors' recent coefficients. */
  lemma WeightsFromHistoryTotal(sqrt: real -> real, lookback: nat, history: Named<seq<real>>, returns_: seq<real>)
    requires IsSqrt(sqrt) && lookback >= 3 && |history| > 0
    ensures var r := WeightsFromHistory(sqrt, lookback, history, returns_);
            && r.Success?
            && exists ics: Named<real> ::
                 && IsWeighting(ics, r.value) && |ics| == |history|
                 && forall i :: 0 <= i < |history| ==>
                      && ics[i].0 == history[i].0
                      && IcFromHistory(sqrt, lookback, history[i].1, returns_) == Success(ics[i].1)
  {
    HistoryIcsSucceed(sqrt, lookback, history, returns_, |history|);
    var ics := HistoryIcs(sqrt, lookback, history, returns_, |history|).value;
    WeightsFromIcCorrect(ics);
  }
}
