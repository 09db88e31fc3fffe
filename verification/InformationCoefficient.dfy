/**
  The plain Pearson correlation of backend/src/backtest/ic_weight_calculator.py, and what any weighted correlation of
  its form keeps; the exponential weights and the factor weights are in FactorWeights.

  Decimal rounding is abstracted: values are exact reals, and the square root is any total function
  satisfying `IsSqrt`.
 */
module InformationCoefficient {
  import opened Common
  import opened RealSums

  /** The ways the calculator raises. */
  datatype IcError = LengthMismatch | TooFewPoints | InsufficientData | NoFactors | ZeroToThePowerZero

  // --------------------------------------------------------------------------------------------
  // Correlation of deviations
  // --------------------------------------------------------------------------------------------

  /** Zero when either variance is zero, otherwise covariance over the product of the roots. */
  function Correlation(sqrt: real -> real, varX: real, varY: real, cov: real): real
    requires IsSqrt(sqrt)
    requires varX >= 0.0 && varY >= 0.0
  {
    if varX == 0.0 || varY == 0.0 then
      0.0
    else
      RootPositive(sqrt, varX);
      RootPositive(sqrt, varY);
      Quotient(cov, sqrt(varX), sqrt(varY))
  }

  function Quotient(cov: real, rootX: real, rootY: real): real
    requires rootX > 0.0 && rootY > 0.0
  {
    ProductPositive(rootX, rootY);
    cov / (rootX * rootY)
  }

  lemma RootPositive(sqrt: real -> real, v: real)
    requires IsSqrt(sqrt) && v > 0.0
    ensures sqrt(v) > 0.0 && sqrt(v) * sqrt(v) == v
  {
  }

  lemma QuotientBounded(A: real, B: real, C: real, r: real, s: real)
    requires r > 0.0 && s > 0.0 && r * r == A && s * s == B
    requires C * C <= A * B
    ensures -1.0 <= Quotient(C, r, s) <= 1.0
  {
    var m := r * s;
    ProductPositive(r, s);
    assert m * m == (r * r) * (s * s);
    SquareBounds(C, m);
  }

  lemma QuotientOfProportional(sign: real, m: real, A: real, B: real, C: real, r: real, s: real)
    requires m > 0.0 && r > 0.0 && s > 0.0
    requires r * r == A && s * s == B
    requires B == m * m * A && C == sign * (m * A)
    ensures Quotient(C, r, s) == sign
  {
    ProductPositive(m, r);
    ProductPositive(r, s);
    assert (m * r) * (m * r) == m * m * (r * r);
    SqrtUnique(s, m * r);
    assert r * s == m * A;
    Cancel(sign, r * s);
  }

  lemma Cancel(sign: real, d: real)
    requires d > 0.0
    ensures (sign * d) / d == sign
  {
  }

  lemma PerfectQuotient(sign: real, A: real, B: real, C: real, r: real, s: real)
    requires r > 0.0 && r * r == A && s > 0.0 && s * s == B
    requires sign == 1.0 || sign == -1.0
    requires Quotient(C, r, s) == sign
    ensures C != 0.0 && C * C == A * B
    ensures sign * (B / C) > 0.0
  {
    ProductPositive(r, s);
    assert C == sign * (r * s);
    assert C * C == (r * s) * (r * s);
    assert (r * s) * (r * s) == (r * r) * (s * s);
    if sign == 1.0 {
      QuotientPositive(B, C);
    } else {
      QuotientPositive(B, -C);
      assert B / -C == -(B / C);
    }
  }

  lemma QuotientPositive(x: real, y: real)
    requires x > 0.0 && y > 0.0
    ensures x / y > 0.0
  {
  }

  function WeightedCorrelation(sqrt: real -> real, w: seq<real>, a: seq<real>, b: seq<real>): real
    requires IsSqrt(sqrt)
    requires |w| == |a| == |b| && NonNegative(w)
  {
    WeightedSquares(w, a);
    WeightedSquares(w, b);
    Correlation(sqrt, WeightedDot(w, a, a), WeightedDot(w, b, b), WeightedDot(w, a, b))
  }

  lemma CorrelationBounded(sqrt: real -> real, w: seq<real>, a: seq<real>, b: seq<real>)
    requires IsSqrt(sqrt)
    requires |w| == |a| == |b| && NonNegative(w)
    ensures -1.0 <= WeightedCorrelation(sqrt, w, a, b) <= 1.0
  {
    var A, B, C := WeightedDot(w, a, a), WeightedDot(w, b, b), WeightedDot(w, a, b);
    WeightedSquares(w, a);
    WeightedSquares(w, b);
    if A != 0.0 && B != 0.0 {
      CauchySchwarz(w, a, b, A, B, C);
      RootPositive(sqrt, A);
      RootPositive(sqrt, B);
      QuotientBounded(A, B, C, sqrt(A), sqrt(B));
    }
  }

  /** Deviations in fixed proportion correlate perfectly, with the sign of the proportion. */
  lemma ProportionalCorrelatePerfectly(sqrt: real -> real, w: seq<real>, a: seq<real>, k: real)
    requires IsSqrt(sqrt)
    requires |w| == |a| && NonNegative(w)
    requires k != 0.0 && WeightedDot(w, a, a) != 0.0
    ensures WeightedCorrelation(sqrt, w, a, Scale(k, a)) == if k > 0.0 then 1.0 else -1.0
  {
    hide WeightedDot;
    var b := Scale(k, a);
    var q := k * k;
    SquarePositive(k, q);
    WeightedSquares(w, a);
    WeightedDotScales(w, k, q, a);
    WeightedSquares(w, b);
    var A, B, C := WeightedDot(w, a, a), WeightedDot(w, b, b), WeightedDot(w, a, b);
    CorrelationOfProportional(sqrt, k, q, A, B, C);
    assert WeightedCorrelation(sqrt, w, a, b) == Correlation(sqrt, A, B, C);
  }

  lemma CorrelationOfProportional(sqrt: real -> real, k: real, q: real, A: real, B: real, C: real)
    requires IsSqrt(sqrt)
    requires q == k * k && q > 0.0 && A > 0.0
    requires B == q * A && C == k * A
    ensures B > 0.0 && Correlation(sqrt, A, B, C) == if k > 0.0 then 1.0 else -1.0
  {
    RootPositive(sqrt, A);
    ProductPositive(q, A);
    RootPositive(sqrt, B);
    if k > 0.0 {
      QuotientOfProportional(1.0, k, A, B, C, sqrt(A), sqrt(B));
    } else {
      assert q == -k * -k;
      QuotientOfProportional(-1.0, -k, A, B, C, sqrt(A), sqrt(B));
    }
  }

  /** Only deviations in fixed proportion correlate perfectly. */
  lemma PerfectIsProportional(sqrt: real -> real, w: seq<real>, a: seq<real>, b: seq<real>, sign: real)
      returns (k: real)
    requires IsSqrt(sqrt)
    requires |w| == |a| == |b| && Positive(w)
    requires sign == 1.0 || sign == -1.0
    requires WeightedCorrelation(sqrt, w, a, b) == sign
    ensures WeightedDot(w, a, a) != 0.0
    ensures sign * k > 0.0
    ensures b == Scale(k, a)
  {
    var A, B, C := WeightedDot(w, a, a), WeightedDot(w, b, b), WeightedDot(w, a, b);
    WeightedSquares(w, a);
    WeightedSquares(w, b);
    RootPositive(sqrt, A);
    RootPositive(sqrt, B);
    PerfectQuotient(sign, A, B, C, sqrt(A), sqrt(B));
    k := B / C;
    VanishingGap(w, a, b, B, C);
  }

  /** When Cauchy-Schwarz is an equality, one list of deviations is a multiple of the other. */
  lemma VanishingGap(w: seq<real>, a: seq<real>, b: seq<real>, B: real, C: real)
    requires |w| == |a| == |b| && Positive(w)
    requires B == WeightedDot(w, b, b) > 0.0
    requires C == WeightedDot(w, a, b) != 0.0
    requires C * C == WeightedDot(w, a, a) * B
    ensures b == Scale(B / C, a)
  {
    hide WeightedDot;
    var gap := Combine(B, a, -C, b);
    CauchySchwarz(w, a, b, WeightedDot(w, a, a), B, C);
    WeightedSquares(w, gap);
    ZeroGapIsProportional(a, b, B, C, gap);
  }

  lemma ZeroGapIsProportional(a: seq<real>, b: seq<real>, B: real, C: real, gap: seq<real>)
    requires |a| == |b| && C != 0.0
    requires gap == Combine(B, a, -C, b)
    requires forall i :: 0 <= i < |gap| ==> gap[i] == 0.0
    ensures b == Scale(B / C, a)
  {
    forall i | 0 <= i < |a|
      ensures b[i] == Scale(B / C, a)[i]
    {
      assert gap[i] == B * a[i] + -C * b[i];
      Divide(C, b[i], B, a[i]);
    }
  }

  lemma Divide(c: real, y: real, b: real, x: real)
    requires c != 0.0 && c * y == b * x
    ensures y == b / c * x
  {
    assert y == (c * y) / c;
    assert (b * x) / c == b / c * x;
  }

  // --------------------------------------------------------------------------------------------
  // calculate_ic
  // --------------------------------------------------------------------------------------------

  function Mean(xs: seq<real>): real
    requires |xs| > 0
  {
    Sum(xs) / |xs| as real
  }

  function CalculateIc(sqrt: real -> real, factorValues: seq<real>, futureReturns: seq<real>): Result<real, IcError>
    requires IsSqrt(sqrt)
  {
    if |factorValues| != |futureReturns| then
      Failure(LengthMismatch)
    else if |factorValues| < 3 then
      Failure(TooFewPoints)
    else
      var dx := Deviations(factorValues, Mean(factorValues));
      var dy := Deviations(futureReturns, Mean(futureReturns));
      SumOfSquares(dx);
      SumOfSquares(dy);
      Success(Correlation(sqrt, Dot(dx, dx), Dot(dy, dy), Dot(dx, dy)))
  }

  lemma SumOfSquares(d: seq<real>)
    ensures Dot(d, d) >= 0.0
  {
    DotIsUnweighted(d, d);
    WeightedSquares(Ones(|d|), d);
  }

  /** The plain coefficient is the weighted one with unit weights. */
  lemma IcIsUnweighted(sqrt: real -> real, xs: seq<real>, ys: seq<real>)
    requires IsSqrt(sqrt)
    requires |xs| == |ys| >= 3
    ensures var dx, dy := Deviations(xs, Mean(xs)), Deviations(ys, Mean(ys));
            CalculateIc(sqrt, xs, ys) == Success(WeightedCorrelation(sqrt, Ones(|xs|), dx, dy))
  {
    var dx, dy := Deviations(xs, Mean(xs)), Deviations(ys, Mean(ys));
    DotIsUnweighted(dx, dx);
    DotIsUnweighted(dy, dy);
    DotIsUnweighted(dx, dy);
  }

  /** The coefficient exists exactly for equal lengths of at least three, and lies in [-1, 1]; unequal lengths are
      reported first. */
  lemma IcBounded(sqrt: real -> real, xs: seq<real>, ys: seq<real>)
    requires IsSqrt(sqrt)
    ensures CalculateIc(sqrt, xs, ys).Success? <==> |xs| == |ys| >= 3
    ensures CalculateIc(sqrt, xs, ys) == Failure(LengthMismatch) <==> |xs| != |ys|
    ensures CalculateIc(sqrt, xs, ys) == Failure(TooFewPoints) <==> |xs| == |ys| < 3
    ensures CalculateIc(sqrt, xs, ys).Success? ==> -1.0 <= CalculateIc(sqrt, xs, ys).value <= 1.0
  {
    if |xs| == |ys| >= 3 {
      IcIsUnweighted(sqrt, xs, ys);
      CorrelationBounded(sqrt, Ones(|xs|), Deviations(xs, Mean(xs)), Deviations(ys, Mean(ys)));
    }
  }

  /** `r` is the correlation coefficient of two variables with variances `A` and `B` and covariance `C`, all in the same
      unit: zero without variance, else of the sign of the covariance and with square `C * C / (A * B)`. */
  predicate IsPearson(r: real, A: real, B: real, C: real) {
    && (A == 0.0 || B == 0.0 ==> r == 0.0)
    && (A != 0.0 && B != 0.0 ==> r * r * (A * B) == C * C && r * C >= 0.0)
  }

  lemma PearsonOfRoots(S: real, vx: real, vy: real, cov: real, rx: real, ry: real, r: real)
    requires S > 0.0 && rx > 0.0 && ry > 0.0 && rx * rx == vx && ry * ry == vy
    requires r == Quotient(cov, rx, ry)
    ensures IsPearson(r, S * vx, S * vy, S * cov)
  {
    var m := rx * ry;
    ProductPositive(rx, ry);
    ProductPositive(rx, rx);
    ProductPositive(ry, ry);
    ProductPositive(S, vx);
    ProductPositive(S, vy);
    assert r * m == cov;
    PearsonSquare(S, vx, vy, rx, ry, r);
    PearsonSign(S, m, r);
  }

  lemma PearsonSquare(S: real, vx: real, vy: real, rx: real, ry: real, r: real)
    requires rx * rx == vx && ry * ry == vy
    ensures var c := S * (r * (rx * ry)); r * r * (S * vx * (S * vy)) == c * c
  {
    assert S * vx * (S * vy) == (S * rx * ry) * (S * rx * ry);
    SquareOfProduct(r, S * rx * ry);
  }

  lemma SquareOfProduct(r: real, k: real)
    ensures r * r * (k * k) == (r * k) * (r * k)
  {
  }

  lemma PearsonSign(S: real, m: real, r: real)
    requires S > 0.0 && m > 0.0
    ensures r * (S * (r * m)) >= 0.0
  {
    SquareNonNegative(r, r * r);
    ProductPositive(S, m);
    ProductNonNegative(S * m, r * r);
    assert r * (S * (r * m)) == S * m * (r * r);
  }

  /** The same from sums: `n` is the weight of all points, `x` and `y` are the sums of the variables, the others the
      sums of their products. */
  predicate IsPearsonOf(r: real, n: real, xx: real, yy: real, xy: real, x: real, y: real) {
    IsPearson(r, n * xx - x * x, n * yy - y * y, n * xy - x * y)
  }

  lemma CorrelationIsPearson(sqrt: real -> real, n: real, vx: real, vy: real, cov: real, xx: real, yy: real, xy: real,
                             x: real, y: real)
    requires IsSqrt(sqrt) && n > 0.0 && vx >= 0.0 && vy >= 0.0
    requires IsCentral(n, vx, xx, x, x) && IsCentral(n, vy, yy, y, y) && IsCentral(n, cov, xy, x, y)
    ensures IsPearsonOf(Correlation(sqrt, vx, vy, cov), n, xx, yy, xy, x, y)
  {
    hide Quotient, IsPearson;
    assert IsPearson(Correlation(sqrt, vx, vy, cov), n * vx, n * vy, n * cov) by {
      ScaledPearson(sqrt, n, vx, vy, cov);
    }
  }

  lemma ScaledPearson(sqrt: real -> real, n: real, vx: real, vy: real, cov: real)
    requires IsSqrt(sqrt) && n > 0.0 && vx >= 0.0 && vy >= 0.0
    ensures IsPearson(Correlation(sqrt, vx, vy, cov), n * vx, n * vy, n * cov)
  {
    hide Quotient;
    if vx != 0.0 && vy != 0.0 {
      RootPositive(sqrt, vx);
      RootPositive(sqrt, vy);
      PearsonOfRoots(n, vx, vy, cov, sqrt(vx), sqrt(vy), Quotient(cov, sqrt(vx), sqrt(vy)));
    } else {
      assert n * 0.0 == 0.0;
    }
  }

  /** For all data the coefficient is Pearson's, written with sums over the data alone. */
  lemma IcIsPearson(sqrt: real -> real, xs: seq<real>, ys: seq<real>)
    requires IsSqrt(sqrt)
    requires |xs| == |ys| >= 3
    ensures CalculateIc(sqrt, xs, ys).Success?
    ensures IsPearsonOf(CalculateIc(sqrt, xs, ys).value, |xs| as real, Dot(xs, xs), Dot(ys, ys), Dot(xs, ys),
                        Sum(xs), Sum(ys))
  {
    hide Sum, Dot, Correlation, IsPearsonOf, IsMean, IsCentral;
    var dx, dy, n := Deviations(xs, Mean(xs)), Deviations(ys, Mean(ys)), |xs| as real;
    QuotientIsMean(Sum(xs), n);
    QuotientIsMean(Sum(ys), n);
    PlainCentralMoment(xs, xs, Mean(xs), Mean(xs));
    PlainCentralMoment(ys, ys, Mean(ys), Mean(ys));
    PlainCentralMoment(xs, ys, Mean(xs), Mean(ys));
    SumOfSquares(dx);
    SumOfSquares(dy);
    CorrelationIsPearson(sqrt, n, Dot(dx, dx), Dot(dy, dy), Dot(dx, dy), Dot(xs, xs), Dot(ys, ys), Dot(xs, ys),
                         Sum(xs), Sum(ys));
  }

  /** The coefficient is +1 or -1 exactly when the returns are an increasing or decreasing affine image of a
      factor that is not constant. */
  lemma IcPerfectIffAffine(sqrt: real -> real, xs: seq<real>, ys: seq<real>, sign: real)
    requires IsSqrt(sqrt)
    requires |xs| == |ys| >= 3
    requires sign == 1.0 || sign == -1.0
    ensures CalculateIc(sqrt, xs, ys) == Success(sign)
            <==> !Constant(xs) && exists k, c :: sign * k > 0.0 && Affine(xs, ys, k, c)
  {
    hide CalculateIc, WeightedCorrelation, Mean, Affine, Constant;
    var w := Ones(|xs|);
    IcIsUnweighted(sqrt, xs, ys);
    PerfectIffAffine(sqrt, w, xs, ys, Mean(xs), Mean(ys), sign) by {
      forall k, c | Affine(xs, ys, k, c)
        ensures Mean(ys) == k * Mean(xs) + c
      {
        MeanAffine(xs, ys, k, c);
      }
      MeanWithin(xs);
    }
  }

  lemma MeanAffine(xs: seq<real>, ys: seq<real>, k: real, c: real)
    requires |xs| > 0 && Affine(xs, ys, k, c)
    ensures Mean(ys) == k * Mean(xs) + c
  {
    hide Sum;
    var w := Ones(|xs|);
    DotAffine(w, xs, ys, k, c);
    DotOnes(xs);
    DotOnes(ys);
    SumOnes(|xs|);
    AverageAffine(Sum(xs), Sum(ys), |xs| as real, k, c);
  }

  lemma AverageAffine(X: real, Y: real, n: real, k: real, c: real)
    requires n > 0.0 && Y == k * X + c * n
    ensures Y / n == k * (X / n) + c
  {
  }

  /** The mean of a constant list is that constant. */
  lemma MeanWithin(xs: seq<real>)
    requires |xs| > 0
    ensures Constant(xs) ==> Mean(xs) == xs[0]
  {
    if Constant(xs) {
      MeanAffine(Ones(|xs|), xs, 0.0, xs[0]);
    }
  }

  /** Deviations in proportion are an affine dependence. */
  lemma ProportionalIsAffine(xs: seq<real>, ys: seq<real>, mx: real, my: real, k: real)
    requires |xs| == |ys| && Deviations(ys, my) == Scale(k, Deviations(xs, mx))
    ensures Affine(xs, ys, k, my - k * mx)
  {
    var dx, dy := Deviations(xs, mx), Deviations(ys, my);
    forall i | 0 <= i < |xs|
      ensures ys[i] == k * xs[i] + (my - k * mx)
    {
      ScaleAt(k, dx, i);
      assert dx[i] == xs[i] - mx && dy[i] == ys[i] - my;
      Shift(xs[i], ys[i], mx, my, k);
    }
  }

  /** And the other way round, about means that depend in the same way. */
  lemma AffineIsProportional(xs: seq<real>, ys: seq<real>, mx: real, my: real, k: real, c: real)
    requires |xs| == |ys| && Affine(xs, ys, k, c) && my == k * mx + c
    ensures Deviations(ys, my) == Scale(k, Deviations(xs, mx))
  {
    hide Scale;
    var dx, dy := Deviations(xs, mx), Deviations(ys, my);
    forall i | 0 <= i < |xs|
      ensures dy[i] == Scale(k, dx)[i]
    {
      ScaleAt(k, dx, i);
      assert ys[i] == k * xs[i] + c;
      Unshift(xs[i], ys[i], mx, my, k, c);
    }
  }

  lemma PerfectIsAffine(sqrt: real -> real, w: seq<real>, xs: seq<real>, ys: seq<real>, mx: real, my: real, sign: real)
    requires IsSqrt(sqrt)
    requires |w| == |xs| == |ys| > 0 && Positive(w)
    requires sign == 1.0 || sign == -1.0
    requires Constant(xs) ==> mx == xs[0]
    requires WeightedCorrelation(sqrt, w, Deviations(xs, mx), Deviations(ys, my)) == sign
    ensures !Constant(xs) && exists k, c :: sign * k > 0.0 && Affine(xs, ys, k, c)
  {
    hide WeightedDot, WeightedCorrelation, Affine, Constant, Deviations, Scale;
    var k := PerfectIsProportional(sqrt, w, Deviations(xs, mx), Deviations(ys, my), sign);
    ProportionalIsAffine(xs, ys, mx, my, k);
    ConstantHasNoVariance(w, xs, mx);
  }

  lemma AffineIsPerfect(sqrt: real -> real, w: seq<real>, xs: seq<real>, ys: seq<real>, mx: real, my: real, sign: real,
                        k: real, c: real)
    requires IsSqrt(sqrt)
    requires |w| == |xs| == |ys| > 0 && Positive(w)
    requires sign == 1.0 || sign == -1.0
    requires !Constant(xs) && sign * k > 0.0 && Affine(xs, ys, k, c) && my == k * mx + c
    ensures WeightedCorrelation(sqrt, w, Deviations(xs, mx), Deviations(ys, my)) == sign
  {
    hide WeightedDot, WeightedCorrelation, Affine, Constant, Deviations, Scale;
    VarianceOfNonConstant(w, xs, mx);
    AffineIsProportional(xs, ys, mx, my, k, c);
    ProportionalCorrelatePerfectly(sqrt, w, Deviations(xs, mx), k);
  }

  /** Around any weighted mean, perfect correlation and affine dependence are the same thing. */
  lemma PerfectIffAffine(sqrt: real -> real, w: seq<real>, xs: seq<real>, ys: seq<real>, mx: real, my: real, sign: real)
    requires IsSqrt(sqrt)
    requires |w| == |xs| == |ys| > 0 && Positive(w)
    requires sign == 1.0 || sign == -1.0
    requires forall k, c :: Affine(xs, ys, k, c) ==> my == k * mx + c
    requires Constant(xs) ==> mx == xs[0]
    ensures WeightedCorrelation(sqrt, w, Deviations(xs, mx), Deviations(ys, my)) == sign
            <==> !Constant(xs) && exists k, c :: sign * k > 0.0 && Affine(xs, ys, k, c)
  {
    hide WeightedDot, WeightedCorrelation, Affine, Constant, Deviations;
    if WeightedCorrelation(sqrt, w, Deviations(xs, mx), Deviations(ys, my)) == sign {
      PerfectIsAffine(sqrt, w, xs, ys, mx, my, sign);
    }
    if !Constant(xs) && exists k, c :: sign * k > 0.0 && Affine(xs, ys, k, c) {
      var k, c :| sign * k > 0.0 && Affine(xs, ys, k, c);
      AffineIsPerfect(sqrt, w, xs, ys, mx, my, sign, k, c);
    }
  }

  lemma Shift(x: real, y: real, mx: real, my: real, k: real)
    requires y - my == k * (x - mx)
    ensures y == k * x + (my - k * mx)
  {
  }

  lemma Unshift(x: real, y: real, mx: real, my: real, k: real, c: real)
    requires y == k * x + c && my == k * mx + c
    ensures y - my == k * (x - mx)
  {
  }

  lemma ZeroTerm(x: real)
    ensures x * (0.0 * 0.0) == 0.0 * x == 0.0
  {
  }

  lemma ConstantHasNoVariance(w: seq<real>, xs: seq<real>, mx: real)
    requires |w| == |xs|
    requires Constant(xs) ==> |xs| > 0 && mx == xs[0]
    ensures Constant(xs) ==> WeightedDot(w, Deviations(xs, mx), Deviations(xs, mx)) == 0.0
  {
    if Constant(xs) {
      hide Sum;
      var d := Deviations(xs, mx);
      var weighted := Product(w, Product(d, d));
      forall i | 0 <= i < |w|
        ensures weighted[i] == Scale(0.0, w)[i]
      {
        assert d[i] == 0.0;
        ZeroTerm(w[i]);
      }
      assert weighted == Scale(0.0, w);
      SumScale(0.0, w);
    }
  }

  lemma VarianceOfNonConstant(w: seq<real>, xs: seq<real>, mx: real)
    requires |w| == |xs| > 0 && Positive(w) && !Constant(xs)
    ensures WeightedDot(w, Deviations(xs, mx), Deviations(xs, mx)) != 0.0
  {
    hide WeightedDot;
    var d := Deviations(xs, mx);
    WeightedSquares(w, d);
    var i :| 0 <= i < |xs| && xs[i] != xs[0];
    assert d[i] != 0.0 || d[0] != 0.0;
  }
}
