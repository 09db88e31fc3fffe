/** Finite sums over exact reals: the arithmetic behind every statistic of the backtest package. */
module RealSums {

  function Sum(s: seq<real>): real {
    if |s| == 0 then 0.0 else s[0] + Sum(s[1..])
  }

  /** Element-by-element product. */
  function Product(a: seq<real>, b: seq<real>): (c: seq<real>)
    requires |a| == |b|
    ensures |c| == |a|
  {
    seq(|a|, i requires 0 <= i < |a| => a[i] * b[i])
  }

  /** `p * a + q * b`, element by element. */
  function Combine(p: real, a: seq<real>, q: real, b: seq<real>): (c: seq<real>)
    requires |a| == |b|
    ensures |c| == |a|
  {
    seq(|a|, i requires 0 <= i < |a| => p * a[i] + q * b[i])
  }

  function Scale(k: real, a: seq<real>): (c: seq<real>)
    ensures |c| == |a|
  {
    seq(|a|, i requires 0 <= i < |a| => k * a[i])
  }

  /** Each element moved down by `m`. */
  function Deviations(xs: seq<real>, m: real): (d: seq<real>)
    ensures |d| == |xs|
  {
    seq(|xs|, i requires 0 <= i < |xs| => xs[i] - m)
  }

  function Ones(n: nat): (o: seq<real>)
    ensures |o| == n
  {
    seq(n, _ => 1.0)
  }

  /** The sum of `a[i] * b[i]`. */
  function Dot(a: seq<real>, b: seq<real>): real
    requires |a| == |b|
  {
    Sum(Product(a, b))
  }

  /** The sum of `w[i] * a[i] * b[i]`. */
  function WeightedDot(w: seq<real>, a: seq<real>, b: seq<real>): real
    requires |w| == |a| == |b|
  {
    Dot(w, Product(a, b))
  }

  predicate NonNegative(w: seq<real>) {
    forall i :: 0 <= i < |w| ==> w[i] >= 0.0
  }

  predicate Positive(w: seq<real>) {
    forall i :: 0 <= i < |w| ==> w[i] > 0.0
  }

  predicate Constant(xs: seq<real>) {
    forall i :: 0 <= i < |xs| ==> xs[i] == xs[0]
  }

  /** `y == k * x + c` at every point. */
  predicate Affine(xs: seq<real>, ys: seq<real>, k: real, c: real) {
    |xs| == |ys| && forall i :: 0 <= i < |xs| ==> ys[i] == k * xs[i] + c
  }

  /** A total function that returns the non-negative square root of every non-negative real. */
  ghost predicate IsSqrt(sqrt: real -> real) {
    forall v: real :: v >= 0.0 ==> sqrt(v) >= 0.0 && sqrt(v) * sqrt(v) == v
  }

  // --------------------------------------------------------------------------------------------
  // Scalars. Non-linear facts are proved on plain variables and only used by name elsewhere.
  // --------------------------------------------------------------------------------------------

  lemma ProductNonNegative(x: real, y: real)
    requires x >= 0.0 && y >= 0.0
    ensures x * y >= 0.0
  {
  }

  lemma ProductPositive(x: real, y: real)
    requires x > 0.0 && y > 0.0
    ensures x * y > 0.0
  {
  }

  lemma SquareNonNegative(x: real, q: real)
    requires q == x * x
    ensures q >= 0.0
  {
  }

  /** Squares order non-negative reals. */
  lemma SquaresOrder(x: real, y: real)
    requires 0.0 <= x < y
    ensures x * x < y * y
  {
    ProductPositive(y - x, y + x);
    assert (y - x) * (y + x) == y * y - x * x;
  }

  lemma SquareBounds(c: real, m: real)
    requires m >= 0.0 && c * c <= m * m
    ensures -m <= c <= m
  {
    if m < c {
      SquaresOrder(m, c);
    } else if c < -m {
      SquaresOrder(m, -c);
    }
  }

  lemma SquarePositive(k: real, q: real)
    requires k != 0.0 && q == k * k
    ensures q > 0.0
  {
    if q <= 0.0 {
      SquareBounds(k, 0.0);
    }
  }

  lemma SqrtUnique(s: real, t: real)
    requires s >= 0.0 && t >= 0.0 && s * s == t * t
    ensures s == t
  {
    SquareBounds(s, t);
    SquareBounds(t, s);
  }

  lemma Distribute(p: real, q: real, s: real, S: real, t: real, T: real)
    ensures p * s + q * t + (p * S + q * T) == p * (s + S) + q * (t + T)
  {
  }

  // --------------------------------------------------------------------------------------------
  // Sums
  // --------------------------------------------------------------------------------------------

  lemma {:induction false} SumAppend(s: seq<real>, x: real)
    ensures Sum(s + [x]) == Sum(s) + x
  {
    if |s| == 0 {
      assert (s + [x])[1..] == [];
    } else {
      assert (s + [x])[1..] == s[1..] + [x];
      SumAppend(s[1..], x);
    }
  }

  lemma CombineHeadTail(p: real, s: seq<real>, q: real, t: seq<real>)
    requires |s| == |t| > 0
    ensures Combine(p, s, q, t)[0] == p * s[0] + q * t[0]
    ensures Combine(p, s, q, t)[1..] == Combine(p, s[1..], q, t[1..])
  {
    forall i | 0 <= i < |s| - 1
      ensures Combine(p, s, q, t)[1..][i] == Combine(p, s[1..], q, t[1..])[i]
    {
      assert s[1..][i] == s[i + 1] && t[1..][i] == t[i + 1];
    }
  }

  lemma {:induction false} SumCombine(p: real, s: seq<real>, q: real, t: seq<real>)
    requires |s| == |t|
    ensures Sum(Combine(p, s, q, t)) == p * Sum(s) + q * Sum(t)
  {
    hide Combine;
    if |s| > 0 {
      CombineHeadTail(p, s, q, t);
      SumCombine(p, s[1..], q, t[1..]);
      Distribute(p, q, s[0], Sum(s[1..]), t[0], Sum(t[1..]));
    }
  }

  lemma ScaleAt(k: real, s: seq<real>, i: nat)
    requires i < |s|
    ensures Scale(k, s)[i] == k * s[i]
  {
  }

  lemma SumScale(k: real, s: seq<real>)
    ensures Sum(Scale(k, s)) == k * Sum(s)
  {
    assert Scale(k, s) == Combine(k, s, 0.0, s);
    SumCombine(k, s, 0.0, s);
  }

  lemma {:induction false} SumSplit(s: seq<real>, i: nat)
    requires i <= |s|
    ensures Sum(s) == Sum(s[..i]) + Sum(s[i..])
  {
    if i > 0 {
      assert s[1..][..i - 1] == s[..i][1..] && s[1..][i - 1..] == s[i..];
      SumSplit(s[1..], i - 1);
    }
  }

  lemma {:induction false} SumNonNegative(s: seq<real>)
    requires NonNegative(s)
    ensures Sum(s) >= 0.0
    ensures forall i :: 0 <= i < |s| ==> s[i] <= Sum(s)
  {
    if |s| > 0 {
      SumNonNegative(s[1..]);
      forall i | 0 <= i < |s|
        ensures s[i] <= Sum(s)
      {
        if i > 0 {
          assert s[i] == s[1..][i - 1];
        }
      }
    }
  }

  lemma {:induction false} SumOnes(n: nat)
    ensures Sum(Ones(n)) == n as real
  {
    if n > 0 {
      assert Ones(n)[1..] == Ones(n - 1);
      SumOnes(n - 1);
    }
  }

  lemma DotOnes(s: seq<real>)
    ensures Dot(Ones(|s|), s) == Sum(s)
  {
    assert Product(Ones(|s|), s) == s;
  }

  lemma DotIsUnweighted(a: seq<real>, b: seq<real>)
    requires |a| == |b|
    ensures Dot(a, b) == WeightedDot(Ones(|a|), a, b)
  {
    DotOnes(Product(a, b));
  }

  /** The weighted sum of `k * x + c`. */
  lemma DotAffine(w: seq<real>, xs: seq<real>, ys: seq<real>, k: real, c: real)
    requires |w| == |xs| && Affine(xs, ys, k, c)
    ensures Dot(w, ys) == k * Dot(w, xs) + c * Sum(w)
  {
    hide Sum;
    var wx := Product(w, xs);
    forall i | 0 <= i < |w|
      ensures Product(w, ys)[i] == Combine(k, wx, c, w)[i]
    {
      AffineTerm(w[i], xs[i], ys[i], k, c);
    }
    assert Product(w, ys) == Combine(k, wx, c, w);
    SumCombine(k, wx, c, w);
  }

  lemma AffineTerm(w: real, x: real, y: real, k: real, c: real)
    requires y == k * x + c
    ensures w * y == k * (w * x) + c * w
  {
  }

  // --------------------------------------------------------------------------------------------
  // Weighted sums of squares
  // --------------------------------------------------------------------------------------------

  /** A sum of squares with non-negative weights is non-negative; with positive weights it is zero only at zero. */
  lemma WeightedSquares(w: seq<real>, c: seq<real>)
    requires |w| == |c| && NonNegative(w)
    ensures WeightedDot(w, c, c) >= 0.0
    ensures Positive(w) && WeightedDot(w, c, c) == 0.0 ==> forall i :: 0 <= i < |c| ==> c[i] == 0.0
  {
    hide Sum;
    var terms := Product(w, Product(c, c));
    forall i | 0 <= i < |c|
      ensures terms[i] >= 0.0
      ensures w[i] > 0.0 && terms[i] == 0.0 ==> c[i] == 0.0
    {
      SquareTerm(w[i], c[i], Product(c, c)[i], terms[i]);
    }
    SumNonNegative(terms);
  }

  lemma SquareTerm(w: real, c: real, q: real, term: real)
    requires w >= 0.0 && q == c * c && term == w * q
    ensures term >= 0.0
    ensures w > 0.0 && term == 0.0 ==> c == 0.0
  {
    SquareNonNegative(c, q);
    ProductNonNegative(w, q);
    if w > 0.0 && c != 0.0 {
      SquarePositive(c, q);
      ProductPositive(w, q);
    }
  }

  /** The weighted sum of squares of `p * a + q * b`, multiplied out. */
  lemma WeightedSquareExpands(w: seq<real>, p: real, a: seq<real>, q: real, b: seq<real>)
    requires |w| == |a| == |b|
    ensures var c := Combine(p, a, q, b);
            WeightedDot(w, c, c)
            == p * p * WeightedDot(w, a, a) + (2.0 * p * q * WeightedDot(w, a, b) + q * q * WeightedDot(w, b, b))
  {
    hide Sum;
    var c := Combine(p, a, q, b);
    var aa, ab, bb := Product(w, Product(a, a)), Product(w, Product(a, b)), Product(w, Product(b, b));
    var rest := Combine(2.0 * p * q, ab, q * q, bb);
    var total := Combine(p * p, aa, 1.0, rest);
    forall i | 0 <= i < |w|
      ensures Product(w, Product(c, c))[i] == total[i]
    {
      QuadraticTerm(w[i], p, a[i], q, b[i], c[i], aa[i], ab[i], bb[i]);
    }
    assert Product(w, Product(c, c)) == total;
    SumCombine(p * p, aa, 1.0, rest);
    SumCombine(2.0 * p * q, ab, q * q, bb);
  }

  lemma QuadraticTerm(w: real, p: real, a: real, q: real, b: real, c: real, aa: real, ab: real, bb: real)
    requires c == p * a + q * b
    requires aa == w * (a * a) && ab == w * (a * b) && bb == w * (b * b)
    ensures w * (c * c) == p * p * aa + 1.0 * (2.0 * p * q * ab + q * q * bb)
  {
    assert c * c == p * p * (a * a) + 2.0 * p * q * (a * b) + q * q * (b * b);
  }

  /** Scaling one or both lists scales their moments. */
  lemma WeightedDotScales(w: seq<real>, k: real, q: real, a: seq<real>)
    requires |w| == |a| && q == k * k
    ensures WeightedDot(w, a, Scale(k, a)) == k * WeightedDot(w, a, a)
    ensures WeightedDot(w, Scale(k, a), Scale(k, a)) == q * WeightedDot(w, a, a)
  {
    hide Sum;
    var b := Scale(k, a);
    var aa := Product(w, Product(a, a));
    forall i | 0 <= i < |w|
      ensures Product(w, Product(a, b))[i] == Scale(k, aa)[i]
      ensures Product(w, Product(b, b))[i] == Scale(q, aa)[i]
    {
      ScaleTerm(w[i], k, q, a[i], b[i]);
    }
    assert Product(w, Product(a, b)) == Scale(k, aa);
    assert Product(w, Product(b, b)) == Scale(q, aa);
    SumScale(k, aa);
    SumScale(q, aa);
  }

  lemma ScaleTerm(w: real, k: real, q: real, a: real, b: real)
    requires q == k * k && b == k * a
    ensures w * (a * b) == k * (w * (a * a))
    ensures w * (b * b) == q * (w * (a * a))
  {
  }

  /** Weighted Cauchy-Schwarz, with the gap between its two sides written as a sum of squares. */
  lemma CauchySchwarz(w: seq<real>, a: seq<real>, b: seq<real>, A: real, B: real, C: real)
    requires |w| == |a| == |b| && NonNegative(w)
    requires A == WeightedDot(w, a, a) && B == WeightedDot(w, b, b) && C == WeightedDot(w, a, b)
    requires B > 0.0
    ensures C * C <= A * B
    ensures C * C == A * B ==> WeightedDot(w, Combine(B, a, -C, b), Combine(B, a, -C, b)) == 0.0
  {
    hide WeightedDot;
    var gap := Combine(B, a, -C, b);
    WeightedSquares(w, gap);
    WeightedSquareExpands(w, B, a, -C, b);
    GapSign(A, B, C, WeightedDot(w, gap, gap));
  }

  lemma GapSign(A: real, B: real, C: real, square: real)
    requires B > 0.0 && square >= 0.0
    requires square == B * B * A + (2.0 * B * -C * C + -C * -C * B)
    ensures C * C <= A * B
    ensures C * C == A * B ==> square == 0.0
  {
    var gap := A * B - C * C;
    assert square == B * gap;
    if gap < 0.0 {
      ProductPositive(B, -gap);
    }
  }

  // --------------------------------------------------------------------------------------------
  // Central moments from raw ones
  // --------------------------------------------------------------------------------------------

  lemma ShiftedTerm(w: real, x: real, y: real, p: real, q: real)
    ensures w * ((x - p) * (y - q)) == 1.0 * (1.0 * (w * (x * y)) + -q * (w * x)) + 1.0 * (-p * (w * y) + p * q * w)
  {
  }

  lemma CombineAt(p: real, a: seq<real>, q: real, b: seq<real>, i: nat)
    requires i < |a| == |b|
    ensures Combine(p, a, q, b)[i] == p * a[i] + q * b[i]
  {
  }

  lemma ShiftedAt(w: seq<real>, xs: seq<real>, ys: seq<real>, p: real, q: real, i: nat)
    requires i < |w| == |xs| == |ys|
    ensures Product(w, Product(Deviations(xs, p), Deviations(ys, q)))[i]
         == Combine(1.0, Combine(1.0, Product(w, Product(xs, ys)), -q, Product(w, xs)),
                    1.0, Combine(-p, Product(w, ys), p * q, w))[i]
  {
    hide Combine;
    var wxy, wx, wy := Product(w, Product(xs, ys)), Product(w, xs), Product(w, ys);
    CombineAt(1.0, wxy, -q, wx, i);
    CombineAt(-p, wy, p * q, w, i);
    CombineAt(1.0, Combine(1.0, wxy, -q, wx), 1.0, Combine(-p, wy, p * q, w), i);
    ShiftedTerm(w[i], xs[i], ys[i], p, q);
  }

  /** What the sums of `w * x * y`, `w * x`, `w * y` and `w` say of the sum of `w * (x - p) * (y - q)`. */
  function Shifted(wxy: real, wx: real, wy: real, w: real, p: real, q: real): real {
    1.0 * (1.0 * wxy + -q * wx) + 1.0 * (-p * wy + p * q * w)
  }

  lemma SumOfFour(wxy: seq<real>, wx: seq<real>, wy: seq<real>, w: seq<real>, p: real, q: real)
    requires |wxy| == |wx| == |wy| == |w|
    ensures Sum(Combine(1.0, Combine(1.0, wxy, -q, wx), 1.0, Combine(-p, wy, p * q, w)))
         == Shifted(Sum(wxy), Sum(wx), Sum(wy), Sum(w), p, q)
  {
    hide Sum, Combine;
    SumCombine(1.0, Combine(1.0, wxy, -q, wx), 1.0, Combine(-p, wy, p * q, w));
    SumCombine(1.0, wxy, -q, wx);
    SumCombine(-p, wy, p * q, w);
  }

  /** A weighted sum of products of shifted values, from the sums of the values themselves. */
  lemma ShiftedDot(w: seq<real>, xs: seq<real>, ys: seq<real>, p: real, q: real)
    requires |w| == |xs| == |ys|
    ensures WeightedDot(w, Deviations(xs, p), Deviations(ys, q))
         == Shifted(WeightedDot(w, xs, ys), Dot(w, xs), Dot(w, ys), Sum(w), p, q)
  {
    hide Sum, Product, Combine, Deviations, Shifted;
    var wxy, wx, wy := Product(w, Product(xs, ys)), Product(w, xs), Product(w, ys);
    var terms := Product(w, Product(Deviations(xs, p), Deviations(ys, q)));
    var sums := Combine(1.0, Combine(1.0, wxy, -q, wx), 1.0, Combine(-p, wy, p * q, w));
    forall i | 0 <= i < |w|
      ensures terms[i] == sums[i]
    {
      ShiftedAt(w, xs, ys, p, q, i);
    }
    assert terms == sums;
    SumOfFour(wxy, wx, wy, w, p, q);
  }

  predicate IsMean(n: real, mean: real, total: real) {
    n * mean == total
  }

  /** `cov` is the sum of products about the means that belongs to a sum of products and two sums, over a weight of
      `n`. */
  predicate IsCentral(n: real, cov: real, products: real, left: real, right: real) {
    n * cov == n * products - left * right
  }

  lemma AboutMeans(n: real, left: real, right: real, products: real, p: real, q: real, cov: real)
    requires IsMean(n, p, left) && IsMean(n, q, right)
    requires cov == Shifted(products, left, right, n, p, q)
    ensures IsCentral(n, cov, products, left, right)
  {
    assert n * cov == n * products - (n * q) * left + (-(n * p) * right + (n * p) * (n * q));
  }

  /** About the weighted means the mixed terms come together. */
  lemma CentralMoment(w: seq<real>, xs: seq<real>, ys: seq<real>, p: real, q: real)
    requires |w| == |xs| == |ys|
    requires IsMean(Sum(w), p, Dot(w, xs)) && IsMean(Sum(w), q, Dot(w, ys))
    ensures IsCentral(Sum(w), WeightedDot(w, Deviations(xs, p), Deviations(ys, q)),
                      WeightedDot(w, xs, ys), Dot(w, xs), Dot(w, ys))
  {
    hide Sum, Dot, WeightedDot, IsMean, IsCentral, Shifted;
    ShiftedDot(w, xs, ys, p, q);
    AboutMeans(Sum(w), Dot(w, xs), Dot(w, ys), WeightedDot(w, xs, ys), p, q,
               WeightedDot(w, Deviations(xs, p), Deviations(ys, q)));
  }

  /** The same with equal weights. */
  lemma PlainCentralMoment(xs: seq<real>, ys: seq<real>, p: real, q: real)
    requires |xs| == |ys|
    requires IsMean(|xs| as real, p, Sum(xs)) && IsMean(|xs| as real, q, Sum(ys))
    ensures IsCentral(|xs| as real, Dot(Deviations(xs, p), Deviations(ys, q)), Dot(xs, ys), Sum(xs), Sum(ys))
  {
    hide Sum, Dot, WeightedDot, IsMean, IsCentral;
    var w := Ones(|xs|);
    SumOnes(|xs|);
    DotOnes(xs);
    DotOnes(ys);
    DotIsUnweighted(xs, ys);
    DotIsUnweighted(Deviations(xs, p), Deviations(ys, q));
    CentralMoment(w, xs, ys, p, q);
  }

  lemma QuotientIsMean(total: real, n: real)
    requires n != 0.0
    ensures IsMean(n, total / n, total)
  {
  }

  // --------------------------------------------------------------------------------------------
  // Totals of a measure over the rows of a table
  // --------------------------------------------------------------------------------------------

  function Measure<T>(rows: seq<T>, g: T -> real): (m: seq<real>)
    ensures |m| == |rows|
  {
    seq(|rows|, i requires 0 <= i < |rows| => g(rows[i]))
  }

  function Total<T>(rows: seq<T>, g: T -> real): real {
    Sum(Measure(rows, g))
  }

  lemma TotalAppend<T>(rows: seq<T>, row: T, g: T -> real)
    ensures Total(rows + [row], g) == Total(rows, g) + g(row)
  {
    assert Measure(rows + [row], g) == Measure(rows, g) + [g(row)];
    SumAppend(Measure(rows, g), g(row));
  }

  lemma TotalConcat<T>(a: seq<T>, b: seq<T>, g: T -> real)
    ensures Total(a + b, g) == Total(a, g) + Total(b, g)
  {
    var m := Measure(a + b, g);
    SumSplit(m, |a|);
    assert m[..|a|] == Measure(a, g) && m[|a|..] == Measure(b, g);
  }

  lemma TotalSingle<T>(row: T, g: T -> real)
    ensures Total([row], g) == g(row)
  {
    TotalAppend([], row, g);
    assert [] + [row] == [row];
  }

  lemma TotalRemove<T>(rows: seq<T>, i: nat, g: T -> real)
    requires i < |rows|
    ensures Total(rows[..i] + rows[i + 1..], g) == Total(rows, g) - g(rows[i])
  {
    hide Total;
    TotalConcat(rows[..i], rows[i + 1..], g);
    TotalConcat(rows[..i], rows[i..], g);
    TotalConcat([rows[i]], rows[i + 1..], g);
    TotalSingle(rows[i], g);
    assert rows[..i] + rows[i..] == rows;
    assert [rows[i]] + rows[i + 1..] == rows[i..];
  }

  lemma TotalUpdate<T>(rows: seq<T>, i: nat, row: T, g: T -> real)
    requires i < |rows|
    ensures Total(rows[i := row], g) == Total(rows, g) - g(rows[i]) + g(row)
  {
    hide Total;
    var rest := rows[i := row];
    TotalRemove(rows, i, g);
    TotalRemove(rest, i, g);
    assert rest[..i] == rows[..i] && rest[i + 1..] == rows[i + 1..];
  }

  lemma {:induction false} TotalPointwise<T>(rows: seq<T>, f: T -> real, g: T -> real, h: T -> real)
    requires forall i :: 0 <= i < |rows| ==> f(rows[i]) == g(rows[i]) + h(rows[i])
    ensures Total(rows, f) == Total(rows, g) + Total(rows, h)
  {
    hide Sum;
    var m := Combine(1.0, Measure(rows, g), 1.0, Measure(rows, h));
    assert Measure(rows, f) == m;
    SumCombine(1.0, Measure(rows, g), 1.0, Measure(rows, h));
  }
}
