/** Sample moments and simple regression of backend/src/backtest/math_utils.py, over exact reals. */
module LeastSquares {
  import opened Common
  import opened RealSums

  datatype OlsError = LengthMismatch

  datatype Fit = Fit(alpha: real, beta: real, residuals: seq<real>)

  function DecimalMean(data: seq<real>): real {
    if |data| == 0 then 0.0 else Sum(data) / |data| as real
  }

  /** Sample variance, with the n - 1 denominator. */
  function DecimalVariance(data: seq<real>): real {
    if |data| < 2 then
      0.0
    else
      var d := Deviations(data, DecimalMean(data));
      Dot(d, d) / (|data| - 1) as real
  }

  function DecimalCovariance(x: seq<real>, y: seq<real>): Result<real, OlsError> {
    if |x| != |y| then
      Failure(LengthMismatch)
    else if |x| < 2 then
      Success(0.0)
    else
      Success(Dot(Deviations(x, DecimalMean(x)), Deviations(y, DecimalMean(y))) / (|x| - 1) as real)
  }

  /** The residuals of a line. */
  function Residuals(x: seq<real>, y: seq<real>, alpha: real, beta: real): seq<real>
    requires |x| == |y|
  {
    seq(|x|, i requires 0 <= i < |x| => y[i] - (alpha + beta * x[i]))
  }

  function DecimalOls(x: seq<real>, y: seq<real>): Result<Fit, OlsError> {
    if |x| < 2 || |y| < 2 then
      Success(Fit(0.0, 0.0, []))
    else if DecimalVariance(x) == 0.0 then
      Success(Fit(DecimalMean(y), 0.0, Deviations(y, DecimalMean(y))))
    else
      match DecimalCovariance(x, y)
      case Failure(e) => Failure(e)
      case Success(cov) =>
        var beta := cov / DecimalVariance(x);
        var alpha := DecimalMean(y) - beta * DecimalMean(x);
        Success(Fit(alpha, beta, Residuals(x, y, alpha, beta)))
  }

  /** The sum of squared residuals of the line (alpha, beta). */
  function SquaredError(x: seq<real>, y: seq<real>, alpha: real, beta: real): real
    requires |x| == |y|
  {
    var r := Residuals(x, y, alpha, beta);
    Dot(r, r)
  }

  lemma DeviationsSumToZero(xs: seq<real>)
    requires |xs| > 0
    ensures Sum(Deviations(xs, DecimalMean(xs))) == 0.0
  {
    hide Sum;
    var n := |xs|;
    var m := DecimalMean(xs);
    assert Deviations(xs, m) == Combine(1.0, xs, -m, Ones(n));
    SumCombine(1.0, xs, -m, Ones(n));
    SumOnes(n);
    MeanTimesCount(Sum(xs), n as real);
  }

  lemma MeanTimesCount(total: real, n: real)
    requires n > 0.0
    ensures 1.0 * total + -(total / n) * n == 0.0
  {
    assert total / n * n == total;
  }

  /** `m` is the sample variance or covariance, with one degree of freedom less than there are points, that belongs to a
      sum of products and two sums over `n` points. */
  predicate IsSampleMoment(n: nat, m: real, products: real, left: real, right: real) {
    n as real * (n as real - 1.0) * m == n as real * products - left * right
  }

  lemma DivideByFreedom(n: nat, v: real, products: real, left: real, right: real)
    requires n >= 2 && IsCentral(n as real, v, products, left, right)
    ensures IsSampleMoment(n, v / (n - 1) as real, products, left, right)
  {
    var k, m := (n - 1) as real, v / (n - 1) as real;
    assert k == n as real - 1.0;
    assert k * m == v;
    assert n as real * k * m == n as real * (k * m);
  }

  /** With fewer than two points variance and covariance are zero; only unequal lengths raise. */
  lemma FewPoints(x: seq<real>, y: seq<real>)
    ensures |x| < 2 ==> DecimalVariance(x) == 0.0
    ensures DecimalCovariance(x, y).Failure? <==> |x| != |y|
    ensures |x| == |y| < 2 ==> DecimalCovariance(x, y) == Success(0.0)
    ensures DecimalMean([]) == 0.0
  {
  }

  /** Sample variance and covariance from sums over the data alone. */
  lemma SampleMoments(x: seq<real>, y: seq<real>)
    requires |x| == |y| >= 2
    ensures IsSampleMoment(|x|, DecimalVariance(x), Dot(x, x), Sum(x), Sum(x))
    ensures DecimalCovariance(x, y).Success?
    ensures IsSampleMoment(|x|, DecimalCovariance(x, y).value, Dot(x, y), Sum(x), Sum(y))
  {
    hide Sum, Dot, IsMean, IsCentral, IsSampleMoment;
    var dx, dy := Deviations(x, DecimalMean(x)), Deviations(y, DecimalMean(y));
    QuotientIsMean(Sum(x), |x| as real);
    QuotientIsMean(Sum(y), |x| as real);
    PlainCentralMoment(x, x, DecimalMean(x), DecimalMean(x));
    PlainCentralMoment(x, y, DecimalMean(x), DecimalMean(y));
    DivideByFreedom(|x|, Dot(dx, dx), Dot(x, x), Sum(x), Sum(x));
    DivideByFreedom(|x|, Dot(dx, dy), Dot(x, y), Sum(x), Sum(y));
  }

  /** The sample variance vanishes exactly on constant data. */
  lemma VarianceZeroIffConstant(xs: seq<real>)
    requires |xs| >= 2
    ensures var d := Deviations(xs, DecimalMean(xs));
            && (DecimalVariance(xs) == 0.0 <==> Dot(d, d) == 0.0)
            && (Dot(d, d) == 0.0 <==> Constant(xs))
            && (Constant(xs) ==> forall i :: 0 <= i < |xs| ==> d[i] == 0.0)
            && Dot(d, d) >= 0.0
  {
    hide Sum, Dot;
    var m := DecimalMean(xs);
    var d := Deviations(xs, m);
    DotIsUnweighted(d, d);
    WeightedSquares(Ones(|xs|), d);
    ZeroQuotient(Dot(d, d), (|xs| - 1) as real);
    if Dot(d, d) == 0.0 {
      assert Positive(Ones(|xs|)) && WeightedDot(Ones(|xs|), d, d) == 0.0;
      forall i | 0 <= i < |xs|
        ensures xs[i] == xs[0]
      {
        assert d[i] == 0.0 && d[0] == 0.0;
      }
    }
    if Constant(xs) {
      ConstantMean(xs);
      assert d == Scale(0.0, d);
      NullDot(d);
    }
  }

  lemma ZeroQuotient(v: real, n: real)
    requires n > 0.0
    ensures v / n == 0.0 <==> v == 0.0
  {
    assert v / n * n == v;
  }

  lemma ConstantMean(xs: seq<real>)
    requires |xs| > 0 && Constant(xs)
    ensures DecimalMean(xs) == xs[0]
  {
    hide Sum;
    assert xs == Scale(xs[0], Ones(|xs|));
    SumScale(xs[0], Ones(|xs|));
    SumOnes(|xs|);
  }

  lemma NullDot(d: seq<real>)
    requires forall i :: 0 <= i < |d| ==> d[i] == 0.0
    ensures Dot(d, d) == 0.0
  {
    assert Product(d, d) == Scale(0.0, d);
    SumScale(0.0, d);
  }

  /** Moving from one line to another adds a perfect square, when the first satisfies the normal equations. */
  lemma NormalEquationsSplitError(x: seq<real>, y: seq<real>, alpha: real, beta: real, alpha': real, beta': real,
                                  s: seq<real>)
    requires |x| == |y| == |s|
    requires forall i :: 0 <= i < |x| ==> s[i] == (beta - beta') * x[i] + (alpha - alpha')
    requires Sum(Residuals(x, y, alpha, beta)) == 0.0 && Dot(Residuals(x, y, alpha, beta), x) == 0.0
    ensures SquaredError(x, y, alpha', beta') == SquaredError(x, y, alpha, beta) + Dot(s, s)
  {
    hide Sum, Dot, WeightedDot;
    var r, r' := Residuals(x, y, alpha, beta), Residuals(x, y, alpha', beta');
    var one := Ones(|x|);
    forall i | 0 <= i < |x|
      ensures r'[i] == Combine(1.0, r, 1.0, s)[i]
    {
      ShiftResidual(x[i], y[i], alpha, beta, alpha', beta', s[i]);
    }
    assert r' == Combine(1.0, r, 1.0, s);
    WeightedSquareExpands(one, 1.0, r, 1.0, s);
    DotIsUnweighted(r, r);
    DotIsUnweighted(r', r');
    DotIsUnweighted(r, s);
    DotIsUnweighted(s, s);
    DotAffine(r, x, s, beta - beta', alpha - alpha');
  }

  lemma ShiftResidual(x: real, y: real, alpha: real, beta: real, alpha': real, beta': real, s: real)
    requires s == (beta - beta') * x + (alpha - alpha')
    ensures y - (alpha' + beta' * x) == y - (alpha + beta * x) + s
  {
  }

  ghost predicate IsLeastSquares(x: seq<real>, y: seq<real>, alpha: real, beta: real)
    requires |x| == |y|
  {
    forall alpha', beta' :: SquaredError(x, y, alpha, beta) <= SquaredError(x, y, alpha', beta')
  }

  /** A line satisfying the normal equations is optimal, and the only optimal line unless x is constant. */
  lemma NormalEquationsOptimal(x: seq<real>, y: seq<real>, alpha: real, beta: real)
    requires |x| == |y| > 0
    requires Sum(Residuals(x, y, alpha, beta)) == 0.0 && Dot(Residuals(x, y, alpha, beta), x) == 0.0
    ensures IsLeastSquares(x, y, alpha, beta)
    ensures !Constant(x) ==>
              forall alpha', beta' | SquaredError(x, y, alpha', beta') == SquaredError(x, y, alpha, beta) ::
                alpha' == alpha && beta' == beta
  {
    hide Sum, Dot, SquaredError;
    forall alpha', beta'
      ensures SquaredError(x, y, alpha, beta) <= SquaredError(x, y, alpha', beta')
      ensures !Constant(x) && SquaredError(x, y, alpha', beta') == SquaredError(x, y, alpha, beta)
              ==> alpha' == alpha && beta' == beta
    {
      var s := seq(|x|, i requires 0 <= i < |x| => (beta - beta') * x[i] + (alpha - alpha'));
      NormalEquationsSplitError(x, y, alpha, beta, alpha', beta', s);
      DotIsUnweighted(s, s);
      WeightedSquares(Ones(|x|), s);
      if !Constant(x) && Dot(s, s) == 0.0 {
        var i :| 0 <= i < |x| && x[i] != x[0];
        assert s[i] == 0.0 && s[0] == 0.0;
        SameLine(beta - beta', alpha - alpha', x[0], x[i]);
      }
    }
  }

  lemma SameLine(db: real, da: real, x0: real, x1: real)
    requires x0 != x1
    requires db * x0 + da == 0.0 && db * x1 + da == 0.0
    ensures db == 0.0 && da == 0.0
  {
    assert db * (x1 - x0) == 0.0;
  }

  /** The fitted line satisfies the normal equations in both branches. */
  lemma FitSatisfiesNormalEquations(x: seq<real>, y: seq<real>)
    requires |x| == |y| >= 2
    ensures var f := DecimalOls(x, y);
            && f.Success? && f.value.residuals == Residuals(x, y, f.value.alpha, f.value.beta)
            && Sum(f.value.residuals) == 0.0 && Dot(f.value.residuals, x) == 0.0
  {
    hide Sum, Dot, DecimalMean;
    var fit := DecimalOls(x, y).value;
    var mx, my := DecimalMean(x), DecimalMean(y);
    var dx, dy := Deviations(x, mx), Deviations(y, my);
    VarianceZeroIffConstant(x);
    assert fit.alpha == my - fit.beta * mx;
    var r := Residuals(x, y, fit.alpha, fit.beta);
    forall i | 0 <= i < |x|
      ensures r[i] == Combine(1.0, dy, -fit.beta, dx)[i]
    {
      CentredResidual(x[i], y[i], mx, my, fit.alpha, fit.beta);
    }
    assert r == Combine(1.0, dy, -fit.beta, dx);
    if DecimalVariance(x) == 0.0 {
      assert fit.residuals == r;
    }
    DeviationsSumToZero(x);
    DeviationsSumToZero(y);
    SumCombine(1.0, dy, -fit.beta, dx);
    assert Sum(r) == 0.0;
    SlopeBalances(x, y, fit.beta);
    DotShift(r, x, mx);
  }

  lemma CentredResidual(x: real, y: real, mx: real, my: real, alpha: real, beta: real)
    requires alpha == my - beta * mx
    ensures y - (alpha + beta * x) == 1.0 * (y - my) + -beta * (x - mx)
  {
  }

  /** With the fitted slope, the centred residuals are orthogonal to the centred x. */
  lemma SlopeBalances(x: seq<real>, y: seq<real>, beta: real)
    requires |x| == |y| >= 2
    requires beta == DecimalOls(x, y).value.beta
    ensures var dx, dy := Deviations(x, DecimalMean(x)), Deviations(y, DecimalMean(y));
            Dot(Combine(1.0, dy, -beta, dx), dx) == 0.0
  {
    hide Sum, DecimalMean;
    var dx, dy := Deviations(x, DecimalMean(x)), Deviations(y, DecimalMean(y));
    var r := Combine(1.0, dy, -beta, dx);
    var xy, xx := Product(dx, dy), Product(dx, dx);
    forall i | 0 <= i < |x|
      ensures Product(r, dx)[i] == Combine(1.0, xy, -beta, xx)[i]
    {
      ExpandProduct(dx[i], dy[i], beta);
    }
    assert Product(r, dx) == Combine(1.0, xy, -beta, xx);
    SumCombine(1.0, xy, -beta, xx);
    VarianceZeroIffConstant(x);
    if Dot(dx, dx) != 0.0 {
      SlopeCancels(Dot(dx, dy), Dot(dx, dx), (|x| - 1) as real, beta);
    } else {
      forall i | 0 <= i < |x|
        ensures xy[i] == Scale(0.0, dy)[i]
      {
      }
      assert xy == Scale(0.0, dy);
      SumScale(0.0, dy);
    }
  }

  lemma ExpandProduct(dx: real, dy: real, beta: real)
    ensures (1.0 * dy + -beta * dx) * dx == 1.0 * (dx * dy) + -beta * (dx * dx)
  {
  }

  lemma SlopeCancels(cov: real, variance: real, n: real, beta: real)
    requires n > 0.0 && variance / n != 0.0
    requires beta == cov / n / (variance / n)
    ensures 1.0 * cov + -beta * variance == 0.0
  {
    var u, v := cov / n, variance / n;
    assert cov == u * n && variance == v * n;
    assert u == beta * v;
    assert beta * (v * n) == beta * v * n;
  }

  lemma DotShift(r: seq<real>, x: seq<real>, m: real)
    requires |r| == |x| && Sum(r) == 0.0 && Dot(r, Deviations(x, m)) == 0.0
    ensures Dot(r, x) == 0.0
  {
    assert Affine(Deviations(x, m), x, 1.0, m);
    DotAffine(r, Deviations(x, m), x, 1.0, m);
  }

  /** The regression returns exactly when an input is short, x is constant, or the lengths agree. */
  lemma OlsReturnsIff(x: seq<real>, y: seq<real>)
    ensures DecimalOls(x, y).Success? <==> |x| < 2 || |y| < 2 || Constant(x) || |x| == |y|
    ensures |x| < 2 || |y| < 2 ==> DecimalOls(x, y) == Success(Fit(0.0, 0.0, []))
    ensures |x| >= 2 && |y| >= 2 && Constant(x) ==>
              var f := DecimalOls(x, y).value;
              f.beta == 0.0 && IsMean(|y| as real, f.alpha, Sum(y)) && f.residuals == Deviations(y, f.alpha)
  {
    hide Sum, Dot, IsMean;
    if |x| >= 2 && |y| >= 2 {
      VarianceZeroIffConstant(x);
      QuotientIsMean(Sum(y), |y| as real);
    }
  }

  /** Least squares: for equal lengths of at least two, the residuals are those of the fitted line, sum to zero and
      are orthogonal to x; no other line has a smaller error, and none as small unless x is constant. */
  lemma OlsIsLeastSquares(x: seq<real>, y: seq<real>)
    requires |x| == |y| >= 2
    ensures DecimalOls(x, y).Success?
    ensures var f := DecimalOls(x, y).value;
            && f.residuals == Residuals(x, y, f.alpha, f.beta)
            && Sum(f.residuals) == 0.0 && Dot(f.residuals, x) == 0.0
            && IsLeastSquares(x, y, f.alpha, f.beta)
            && (!Constant(x) ==>
                  forall alpha, beta | SquaredError(x, y, alpha, beta) == SquaredError(x, y, f.alpha, f.beta) ::
                    alpha == f.alpha && beta == f.beta)
            && (Constant(x) ==> f.beta == 0.0)
  {
    assert Constant(x) ==> DecimalOls(x, y).value.beta == 0.0 by { VarianceZeroIffConstant(x); }
    hide Sum, Dot, SquaredError, DecimalOls;
    FitSatisfiesNormalEquations(x, y);
    var f := DecimalOls(x, y).value;
    NormalEquationsOptimal(x, y, f.alpha, f.beta);
  }
}
