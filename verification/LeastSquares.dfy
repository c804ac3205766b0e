/**
 The forecast's line fit over the reals: in every branch the returned line minimises the
 sum of squared residuals.
 */
module LeastSquares {

  datatype Point = Point(x: real, y: real)

  type Series = nat -> real

  /** f(0) + ... + f(n - 1) */
  function Sum(n: nat, f: Series): real {
    if n == 0 then 0.0 else Sum(n - 1, f) + f(n - 1)
  }

  function X(ps: seq<Point>): Series {
    (i: nat) => if i < |ps| then ps[i].x else 0.0
  }

  function Y(ps: seq<Point>): Series {
    (i: nat) => if i < |ps| then ps[i].y else 0.0
  }

  function Const(c: real): Series {
    (i: nat) => c
  }

  function Plus(f: Series, g: Series): Series {
    (i: nat) => f(i) + g(i)
  }

  function Scaled(c: real, f: Series): Series {
    (i: nat) => c * f(i)
  }

  function Times(f: Series, g: Series): Series {
    (i: nat) => f(i) * g(i)
  }

  /** Deviations from a centre. */
  function Off(f: Series, c: real): Series {
    (i: nat) => f(i) - c
  }

  function Residual(ps: seq<Point>, slope: real, intercept: real): Series {
    (i: nat) => Y(ps)(i) - slope * X(ps)(i) - intercept
  }

  /** Sum of squared residuals of a line. */
  function Ssr(ps: seq<Point>, slope: real, intercept: real): real {
    Sum(|ps|, Times(Residual(ps, slope, intercept), Residual(ps, slope, intercept)))
  }

  function Sxx(ps: seq<Point>, mx: real): real {
    Sum(|ps|, Times(Off(X(ps), mx), Off(X(ps), mx)))
  }

  function Sxy(ps: seq<Point>, mx: real, my: real): real {
    Sum(|ps|, Times(Off(X(ps), mx), Off(Y(ps), my)))
  }

  // ---- Linear sums ----

  lemma {:induction false} SumSame(n: nat, f: Series, g: Series)
    requires forall i: nat :: i < n ==> f(i) == g(i)
    ensures Sum(n, f) == Sum(n, g)
  {
    if n > 0 {
      SumSame(n - 1, f, g);
    }
  }

  lemma {:induction false} SumPlus(n: nat, f: Series, g: Series)
    ensures Sum(n, Plus(f, g)) == Sum(n, f) + Sum(n, g)
  {
    if n > 0 {
      SumPlus(n - 1, f, g);
    }
  }

  lemma {:induction false} SumScaled(n: nat, c: real, f: Series) returns (t: real)
    ensures t == Sum(n, f) && Sum(n, Scaled(c, f)) == c * t
  {
    t := 0.0;
    if n == 0 {
      Vanish(c, 0.0);
    } else {
      t := SumScaled(n - 1, c, f);
      Distribute(c, t, f(n - 1));
      t := t + f(n - 1);
    }
  }

  lemma Distribute(c: real, x: real, y: real)
    ensures c * (x + y) == c * x + c * y
  {
  }

  lemma {:induction false} SumConst(n: nat, c: real)
    ensures Sum(n, Const(c)) == n as real * c
  {
    if n == 0 {
      ZeroTimes(c);
    } else {
      SumConst(n - 1, c);
      OneMore((n - 1) as real, c);
      assert n as real == (n - 1) as real + 1.0;
    }
  }

  lemma ZeroTimes(c: real)
    ensures 0.0 * c == 0.0
  {
  }

  lemma OneMore(n: real, c: real)
    ensures (n + 1.0) * c == n * c + c
  {
  }

  lemma {:induction false} SumOfSquares(n: nat, f: Series)
    ensures Sum(n, Times(f, f)) >= 0.0
    ensures Sum(n, Times(f, f)) == 0.0 ==> forall i: nat :: i < n ==> f(i) == 0.0
  {
    if n > 0 {
      SumOfSquares(n - 1, f);
      OneSquareMore(Sum(n - 1, Times(f, f)), f(n - 1));
    }
  }

  lemma OneSquareMore(total: real, v: real)
    requires total >= 0.0
    ensures total + v * v >= 0.0
    ensures total + v * v == 0.0 ==> total == 0.0 && v == 0.0
  {
    var vv := Square(v);
  }

  lemma Positive(x: real, y: real) returns (z: real)
    requires x > 0.0 && y > 0.0
    ensures z == x * y && z > 0.0
  {
    z := x * y;
  }

  lemma Square(x: real) returns (xx: real)
    ensures xx == x * x && xx >= 0.0 && (x != 0.0 ==> xx > 0.0)
  {
    xx := x * x;
    var y := -x;
    if x > 0.0 {
      var z := Positive(x, x);
    } else if x < 0.0 {
      var z := Positive(y, y);
      assert y * y == xx;
    }
  }

  lemma ScaledSquare(k: real, u: real) returns (p: real)
    requires k >= 0.0
    ensures p == k * (u * u) && p >= 0.0
    ensures k > 0.0 && u != 0.0 ==> p > 0.0
  {
    var v := Square(u);
    ScaledUp(k, v);
    p := k * v;
    if k > 0.0 && u != 0.0 {
      var z := Positive(k, v);
    }
  }

  lemma ScaledUp(k: real, v: real)
    requires k >= 0.0 && v >= 0.0
    ensures k * v >= 0.0
  {
  }

  /** Deviations from the mean add up to nothing. */
  lemma DeviationsCancel(n: nat, f: Series, mean: real)
    requires Sum(n, f) == n as real * mean
    ensures Sum(n, Off(f, mean)) == 0.0
  {
    SumSame(n, Off(f, mean), Plus(f, Const(-mean)));
    SumPlus(n, f, Const(-mean));
    SumConst(n, -mean);
    assert n as real * -mean == -(n as real * mean);
  }

  // ---- The residuals of any line, around the means ----

  /** One squared residual: `p` and `q` are the deviations in y and x, `e` the error at the means. */
  lemma SquareOut(p: real, q: real, a: real, e: real)
    ensures (p - a * q + e) * (p - a * q + e)
         == p * p + -2.0 * a * (q * p) + a * a * (q * q) + 2.0 * e * p + -2.0 * a * e * q + e * e
  {
    var aq := a * q;
    assert aq * aq == a * a * (q * q);
    assert p * aq == a * (q * p);
    assert e * aq == a * e * q;
  }

  lemma Recentre(x: real, y: real, mx: real, my: real, a: real, c: real)
    ensures y - a * x - c == (y - my) - a * (x - mx) + (my - a * mx - c)
  {
    assert a * (x - mx) == a * x - a * mx;
  }

  function Expanded(p: Series, q: Series, a: real, e: real): Series {
    Plus(Plus(Plus(Times(p, p), Scaled(-2.0 * a, Times(q, p))), Scaled(a * a, Times(q, q))),
         Plus(Plus(Scaled(2.0 * e, p), Scaled(-2.0 * a * e, q)), Const(e * e)))
  }

  lemma SumScaledZero(n: nat, c: real, f: Series)
    requires Sum(n, f) == 0.0
    ensures Sum(n, Scaled(c, f)) == 0.0
  {
    var t := SumScaled(n, c, f);
    Vanish(c, t);
  }

  lemma Vanish(x: real, y: real)
    ensures x * 0.0 == 0.0 && y * 0.0 == 0.0
  {
  }

  /** Deviations from the means cancel, so only the squares and the product are left. */
  lemma SumExpanded(n: nat, p: Series, q: Series, a: real, e: real, m: real) returns (w: real, h: real, k: real)
    requires Sum(n, p) == 0.0 && Sum(n, q) == 0.0 && m == n as real
    ensures w == Sum(n, Times(p, p)) && h == Sum(n, Times(q, p)) && k == Sum(n, Times(q, q))
    ensures Sum(n, Expanded(p, q, a, e)) == w + -2.0 * a * h + a * a * k + m * (e * e)
  {
    var f1, f2, f3 := Times(p, p), Scaled(-2.0 * a, Times(q, p)), Scaled(a * a, Times(q, q));
    var g1, g2, g3 := Scaled(2.0 * e, p), Scaled(-2.0 * a * e, q), Const(e * e);
    SumPlus(n, Plus(Plus(f1, f2), f3), Plus(Plus(g1, g2), g3));
    SumPlus(n, Plus(f1, f2), f3);
    SumPlus(n, f1, f2);
    SumPlus(n, Plus(g1, g2), g3);
    SumPlus(n, g1, g2);
    w := Sum(n, f1);
    h := SumScaled(n, -2.0 * a, Times(q, p));
    k := SumScaled(n, a * a, Times(q, q));
    SumScaledZero(n, 2.0 * e, p);
    SumScaledZero(n, -2.0 * a * e, q);
    SumConst(n, e * e);
  }

  lemma ResidualsExpand(ps: seq<Point>, mx: real, my: real, a: real, c: real, e: real)
    requires e == my - a * mx - c
    ensures Ssr(ps, a, c) == Sum(|ps|, Expanded(Off(Y(ps), my), Off(X(ps), mx), a, e))
  {
    var r := Residual(ps, a, c);
    var p, q := Off(Y(ps), my), Off(X(ps), mx);
    forall i: nat | i < |ps| ensures Times(r, r)(i) == Expanded(p, q, a, e)(i) {
      Recentre(ps[i].x, ps[i].y, mx, my, a, c);
      SquareOut(p(i), q(i), a, e);
      assert r(i) == p(i) - a * q(i) + e;
    }
    SumSame(|ps|, Times(r, r), Expanded(p, q, a, e));
  }

  ghost predicate Means(ps: seq<Point>, mx: real, my: real) {
    Sum(|ps|, X(ps)) == |ps| as real * mx && Sum(|ps|, Y(ps)) == |ps| as real * my
  }

  function Syy(ps: seq<Point>, my: real): real {
    Sum(|ps|, Times(Off(Y(ps), my), Off(Y(ps), my)))
  }

  /** Around the means the mixed terms vanish. */
  lemma ResidualsAroundMeans(ps: seq<Point>, mx: real, my: real, a: real, c: real, e: real, n: real)
    returns (x: real, w: real, h: real, k: real)
    requires Means(ps, mx, my) && e == my - a * mx - c && n == |ps| as real
    ensures x == Ssr(ps, a, c) && w == Syy(ps, my) && h == Sxy(ps, mx, my) && k == Sxx(ps, mx)
    ensures x == w + -2.0 * a * h + a * a * k + n * (e * e)
  {
    ResidualsExpand(ps, mx, my, a, c, e);
    DeviationsCancel(|ps|, X(ps), mx);
    DeviationsCancel(|ps|, Y(ps), my);
    x := Ssr(ps, a, c);
    w, h, k := SumExpanded(|ps|, Off(Y(ps), my), Off(X(ps), mx), a, e, n);
  }

  // ---- The minimum ----

  /** Without variance in x there is no covariance. */
  lemma NoVariance(ps: seq<Point>, mx: real, my: real)
    requires Sxx(ps, mx) == 0.0
    ensures Sxy(ps, mx, my) == 0.0
  {
    SumOfSquares(|ps|, Off(X(ps), mx));
    SumSame(|ps|, Times(Off(X(ps), mx), Off(Y(ps), my)), Const(0.0));
    SumConst(|ps|, 0.0);
  }

  /** The normal equations. */
  ghost predicate Fits(ps: seq<Point>, mx: real, my: real, s: real, b: real) {
    && Means(ps, mx, my)
    && Solves(Sxx(ps, mx), s, Sxy(ps, mx, my))
    && b == my - s * mx
  }

  predicate Solves(k: real, s: real, h: real) {
    k * s == h
  }

  /** Completing the square in the slope. */
  lemma CompleteSquare(k: real, h: real, s: real, a: real)
    requires k * s == h
    ensures -2.0 * a * h + a * a * k == (-2.0 * s * h + s * s * k) + k * ((a - s) * (a - s))
  {
    assert a * h == k * (a * s) && s * h == k * (s * s);
    assert k * ((a - s) * (a - s)) == k * (a * a) - 2.0 * (k * (a * s)) + k * (s * s);
  }

  lemma FitResiduals(ps: seq<Point>, mx: real, my: real, s: real, b: real) returns (y: real, w: real, h: real, k: real)
    requires Fits(ps, mx, my, s, b)
    ensures y == Ssr(ps, s, b) && w == Syy(ps, my) && h == Sxy(ps, mx, my) && k == Sxx(ps, mx)
    ensures y == w + -2.0 * s * h + s * s * k && Solves(k, s, h)
  {
    y, w, h, k := ResidualsAroundMeans(ps, mx, my, s, b, 0.0, |ps| as real);
    Vanish(|ps| as real, 0.0);
  }

  lemma Differ(x: real, y: real, w: real, h: real, k: real, w': real, h': real, k': real, s: real, a: real, p: real,
               q: real)
    requires x == w' + -2.0 * a * h' + a * a * k' + q
    requires y == w + -2.0 * s * h + s * s * k
    requires w == w' && h == h' && k == k'
    requires k * s == h && p == k * ((a - s) * (a - s))
    ensures x == y + p + q
  {
    CompleteSquare(k, h, s, a);
  }

  lemma Signs(k: real, u: real, n: real, e: real) returns (p: real, q: real)
    requires k >= 0.0 && n >= 0.0
    ensures p == k * (u * u) && q == n * (e * e) && p >= 0.0 && q >= 0.0
    ensures k > 0.0 && n > 0.0 && p + q == 0.0 ==> u == 0.0 && e == 0.0
  {
    p := ScaledSquare(k, u);
    q := ScaledSquare(n, e);
  }

  lemma ExcessAlgebra(x: real, y: real, w: real, h: real, k: real, w': real, h': real, k': real, s: real, a: real,
                      n: real, e: real)
    returns (p: real, q: real)
    requires x == w' + -2.0 * a * h' + a * a * k' + n * (e * e)
    requires y == w + -2.0 * s * h + s * s * k && Solves(k, s, h)
    requires w == w' && h == h' && k == k' && k >= 0.0 && n >= 0.0
    ensures x == y + p + q && p >= 0.0 && q >= 0.0
    ensures k > 0.0 && n > 0.0 && p + q == 0.0 ==> a - s == 0.0 && e == 0.0
  {
    p, q := Signs(k, a - s, n, e);
    Differ(x, y, w, h, k, w', h', k', s, a, p, q);
  }

  lemma SxxIsPositive(ps: seq<Point>, mx: real)
    ensures Sxx(ps, mx) >= 0.0
  {
    SumOfSquares(|ps|, Off(X(ps), mx));
  }

  /** How much worse any other line is: two terms, neither negative, both gone only for the
      same line when x varies. */
  lemma Excess(ps: seq<Point>, mx: real, my: real, s: real, b: real, a: real, c: real, e: real)
    returns (p: real, q: real)
    requires Fits(ps, mx, my, s, b) && e == my - a * mx - c
    ensures Ssr(ps, a, c) == Ssr(ps, s, b) + p + q && p >= 0.0 && q >= 0.0
    ensures Sxx(ps, mx) > 0.0 && |ps| > 0 && p + q == 0.0 ==> a - s == 0.0 && e == 0.0
  {
    var n := |ps| as real;
    var y, w, h, k := FitResiduals(ps, mx, my, s, b);
    var x, w', h', k' := ResidualsAroundMeans(ps, mx, my, a, c, e, n);
    SxxIsPositive(ps, mx);
    p, q := ExcessAlgebra(x, y, w, h, k, w', h', k', s, a, n, e);
  }

  lemma FitIsMinimal(ps: seq<Point>, mx: real, my: real, s: real, b: real, a: real, c: real)
    requires Fits(ps, mx, my, s, b)
    ensures Ssr(ps, s, b) <= Ssr(ps, a, c)
  {
    var p, q := Excess(ps, mx, my, s, b, a, c, my - a * mx - c);
  }

  /** With some variance no other line is as good. */
  lemma FitIsUnique(ps: seq<Point>, mx: real, my: real, s: real, b: real, a: real, c: real)
    requires Fits(ps, mx, my, s, b) && Sxx(ps, mx) > 0.0 && |ps| > 0
    ensures Ssr(ps, a, c) == Ssr(ps, s, b) <==> a == s && c == b
  {
    var p, q := Excess(ps, mx, my, s, b, a, c, my - a * mx - c);
  }

  lemma FewPoints(ps: seq<Point>, a: real, c: real)
    requires |ps| <= 1
    ensures Ssr(ps, 0.0, if ps == [] then 0.0 else ps[0].y) <= Ssr(ps, a, c)
  {
    SumOfSquares(|ps|, Residual(ps, a, c));
    if |ps| == 1 {
      var r, first: nat := Residual(ps, 0.0, ps[0].y), 0;
      assert X(ps)(first) == ps[0].x && Y(ps)(first) == ps[0].y;
      ZeroTimes(ps[0].x);
      assert r(first) == 0.0;
      assert Sum(0, Times(r, r)) == 0.0;
      assert Times(r, r)(first) == 0.0;
    }
  }

  // ---- The fit ----

  method Total(n: nat, f: Series) returns (t: real)
    ensures t == Sum(n, f)
  {
    t := 0.0;
    for i := 0 to n
      invariant t == Sum(i, f)
    {
      t := t + f(i);
    }
  }

  lemma MeanTimesCount(sum: real, n: real)
    requires n != 0.0
    ensures n * (sum / n) == sum
  {
  }

  function MeanOf(n: nat, f: Series): real
    requires n > 0
  {
    Sum(n, f) / n as real
  }

  method Mean(n: nat, f: Series) returns (mean: real)
    requires n > 0
    ensures mean == MeanOf(n, f) && Sum(n, f) == n as real * mean
  {
    var total := Total(n, f);
    mean := total / n as real;
    MeanTimesCount(total, n as real);
  }

  /** The slope of the fit: zero without variance. */
  method Slope(numerator: real, denominator: real) returns (s: real)
    requires denominator == 0.0 ==> numerator == 0.0
    ensures Solves(denominator, s, numerator) && (denominator == 0.0 ==> s == 0.0)
  {
    if denominator == 0.0 {
      s := 0.0;
      ZeroTimes(s);
    } else {
      s := numerator / denominator;
      MeanTimesCount(numerator, denominator);
    }
  }

  /** The branches for two points or more. */
  method FitLine(ps: seq<Point>) returns (slope: real, intercept: real)
    requires |ps| >= 2
    ensures Fits(ps, MeanOf(|ps|, X(ps)), MeanOf(|ps|, Y(ps)), slope, intercept)
    ensures Sxx(ps, MeanOf(|ps|, X(ps))) == 0.0 ==> slope == 0.0
  {
    var meanX := Mean(|ps|, X(ps));
    var meanY := Mean(|ps|, Y(ps));
    var numerator := Total(|ps|, Times(Off(X(ps), meanX), Off(Y(ps), meanY)));
    var denominator := Total(|ps|, Times(Off(X(ps), meanX), Off(X(ps), meanX)));
    if denominator == 0.0 {
      NoVariance(ps, meanX, meanY);
    }
    slope := Slope(numerator, denominator);
    intercept := meanY - slope * meanX;
  }

  /** `linear_fit`: no line has a smaller sum of squared residuals, in any branch. */
  method LinearFit(ps: seq<Point>) returns (slope: real, intercept: real)
    ensures forall a, c :: Ssr(ps, slope, intercept) <= Ssr(ps, a, c)
    ensures |ps| < 2 ==> slope == 0.0 && intercept == if ps == [] then 0.0 else ps[0].y
  {
    if |ps| < 2 {
      slope, intercept := 0.0, if ps == [] then 0.0 else ps[0].y;
      forall a, c ensures Ssr(ps, slope, intercept) <= Ssr(ps, a, c) {
        FewPoints(ps, a, c);
      }
      return;
    }
    slope, intercept := FitLine(ps);
    forall a, c ensures Ssr(ps, slope, intercept) <= Ssr(ps, a, c) {
      FitIsMinimal(ps, MeanOf(|ps|, X(ps)), MeanOf(|ps|, Y(ps)), slope, intercept, a, c);
    }
  }

  // ---- Index points ----

  function Index(): Series {
    (i: nat) => i as real
  }

  lemma {:induction false} IndexSums(n: nat)
    ensures var r := n as real;
            && 2.0 * Sum(n, Index()) == r * r - r
            && 6.0 * Sum(n, Times(Index(), Index())) == 2.0 * (r * r * r) - 3.0 * (r * r) + r
  {
    if n > 0 {
      IndexSums(n - 1);
      var m := (n - 1) as real;
      assert n as real == m + 1.0;
      IndexStep(m);
    }
  }

  lemma IndexStep(m: real)
    ensures (m + 1.0) * (m + 1.0) == m * m + 2.0 * m + 1.0
    ensures (m + 1.0) * (m + 1.0) * (m + 1.0) == m * m * m + 3.0 * (m * m) + 3.0 * m + 1.0
  {
  }

  function ExpandedSquare(f: Series, mean: real): Series {
    Plus(Plus(Times(f, f), Scaled(-2.0 * mean, f)), Const(mean * mean))
  }

  lemma SquaresExpand(n: nat, f: Series, mean: real)
    ensures Sum(n, Times(Off(f, mean), Off(f, mean))) == Sum(n, ExpandedSquare(f, mean))
  {
    forall i: nat | i < n ensures Times(Off(f, mean), Off(f, mean))(i) == ExpandedSquare(f, mean)(i) {
      SquareDeviation(f(i), mean);
    }
    SumSame(n, Times(Off(f, mean), Off(f, mean)), ExpandedSquare(f, mean));
  }

  /** Sum of squared deviations, from the plain sums. */
  lemma VarianceFromSums(n: nat, f: Series, mean: real) returns (t: real)
    ensures t == Sum(n, f)
    ensures Sum(n, Times(Off(f, mean), Off(f, mean)))
        == Sum(n, Times(f, f)) + -2.0 * mean * t + n as real * (mean * mean)
  {
    SquaresExpand(n, f, mean);
    SumPlus(n, Plus(Times(f, f), Scaled(-2.0 * mean, f)), Const(mean * mean));
    SumPlus(n, Times(f, f), Scaled(-2.0 * mean, f));
    t := SumScaled(n, -2.0 * mean, f);
    SumConst(n, mean * mean);
  }

  lemma SquareDeviation(x: real, m: real)
    ensures (x - m) * (x - m) == x * x + -2.0 * m * x + m * m
  {
  }

  /** The forecast fits against positions 0, 1, 2, ... */
  ghost predicate Indexed(ps: seq<Point>) {
    forall i :: 0 <= i < |ps| ==> ps[i].x == i as real
  }

  lemma IndexFacts(ps: seq<Point>, mx: real) returns (s1: real, s2: real)
    requires Indexed(ps) && Sum(|ps|, X(ps)) == |ps| as real * mx
    ensures var n := |ps| as real;
            && s1 == n * mx && 2.0 * s1 == n * n - n
            && 6.0 * s2 == 2.0 * (n * n * n) - 3.0 * (n * n) + n
            && Sxx(ps, mx) == s2 + -2.0 * mx * s1 + n * (mx * mx)
  {
    var n := |ps|;
    SumSame(n, X(ps), Index());
    SumSame(n, Times(Off(X(ps), mx), Off(X(ps), mx)), Times(Off(Index(), mx), Off(Index(), mx)));
    s1 := VarianceFromSums(n, Index(), mx);
    IndexSums(n);
    s2 := Sum(n, Times(Index(), Index()));
  }

  /** The denominator for n positions is n(n^2 - 1)/12, so from two days of data on the forecast
      never takes the zero-variance branch. */
  lemma IndexDenominator(ps: seq<Point>, mx: real)
    requires Indexed(ps) && |ps| >= 1 && Sum(|ps|, X(ps)) == |ps| as real * mx
    ensures var n := |ps| as real; 12.0 * Sxx(ps, mx) == n * (n * n - 1.0)
    ensures |ps| >= 2 ==> Sxx(ps, mx) > 0.0
  {
    var s1, s2 := IndexFacts(ps, mx);
    Denominator(|ps| as real, mx, s1, s2, Sxx(ps, mx));
  }

  lemma Denominator(n: real, mx: real, s1: real, s2: real, sxx: real)
    requires n >= 1.0 && s1 == n * mx && 2.0 * s1 == n * n - n
    requires 6.0 * s2 == 2.0 * (n * n * n) - 3.0 * (n * n) + n
    requires sxx == s2 + -2.0 * mx * s1 + n * (mx * mx)
    ensures 12.0 * sxx == n * (n * n - 1.0)
    ensures n >= 2.0 ==> sxx > 0.0
  {
    HalfRange(n, mx, s1);
    assert mx * s1 == n * (mx * mx);
    assert 4.0 * (n * (mx * mx)) == n * ((n - 1.0) * (n - 1.0)) by {
      assert 4.0 * (mx * mx) == (n - 1.0) * (n - 1.0);
    }
    assert n * ((n - 1.0) * (n - 1.0)) == n * n * n - 2.0 * (n * n) + n;
    assert n * (n * n - 1.0) == n * n * n - n;
    if n >= 2.0 {
      var z := Positive(n - 1.0, n + 1.0);
      assert z == n * n - 1.0;
      var y := Positive(n, z);
    }
  }

  lemma Negated(n: real, g: real)
    ensures n * -g == -(n * g)
  {
  }

  lemma HalfRange(n: real, mx: real, s1: real)
    requires n >= 1.0 && s1 == n * mx && 2.0 * s1 == n * n - n
    ensures 2.0 * mx == n - 1.0
  {
    var gap := 2.0 * mx - (n - 1.0);
    assert n * gap == 2.0 * (n * mx) - (n * n - n);
    assert 2.0 * (n * mx) == 2.0 * s1;
    if gap > 0.0 {
      var z := Positive(n, gap);
    }
    Negated(n, gap);
    if gap < 0.0 {
      var z := Positive(n, -gap);
    }
  }
}
