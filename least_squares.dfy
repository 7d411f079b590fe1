/** Ordinary least-squares fit of a straight line to the points (k, ys[k]),
    k = 0 .. n-1: what the linear-regression indicator asks of `Fit.Line`.
    The fit is given by its closed form; the lemmas show that it is the
    least-squares line (its residuals satisfy the normal equations and no
    other line has a smaller sum of squared residuals). */
module LeastSquares {
  import opened Series

  /** y = intercept + slope·x */
  datatype Line = Line(intercept: real, slope: real) {
    function At(x: real): real {
      intercept + slope * x
    }
  }

  function Sq(x: real): real {
    x * x
  }

  /** Σ k·ys[k] */
  function Moment(ys: seq<real>): real
  {
    if |ys| == 0 then 0.0 else Moment(Init(ys)) + (|ys| - 1) as real * Last(ys)
  }

  /** Σ_{k<n} k */
  function PositionSum(n: nat): real
  {
    if n == 0 then 0.0 else PositionSum(n - 1) + (n - 1) as real
  }

  /** Σ_{k<n} k² */
  function PositionSquareSum(n: nat): real
  {
    if n == 0 then 0.0 else PositionSquareSum(n - 1) + Sq((n - 1) as real)
  }

  /** n·Σx² - (Σx)², the denominator of the least-squares slope. */
  function Denominator(n: real, sx: real, sxx: real): real
  {
    n * sxx - sx * sx
  }

  lemma {:induction false} PositionSumClosedForm(n: nat)
    ensures PositionSum(n) == (n as real) * (n as real - 1.0) / 2.0
  {
    if n > 0 {
      PositionSumClosedForm(n - 1);
    }
  }

  lemma {:induction false} PositionSquareSumClosedForm(n: nat)
    ensures PositionSquareSum(n) == (n as real - 1.0) * (n as real) * (2.0 * n as real - 1.0) / 6.0
  {
    if n > 0 {
      PositionSquareSumClosedForm(n - 1);
    }
  }

  /** For the positions 0 .. n-1 the slope's denominator is n²(n²-1)/12,
      positive from two points on. */
  lemma SpreadClosedForm(n: nat)
    ensures n >= 2 ==> Denominator(n as real, PositionSum(n), PositionSquareSum(n)) > 0.0
  {
    if n >= 2 {
      PositionSumClosedForm(n);
      PositionSquareSumClosedForm(n);
      SpreadOfPositions(n as real, PositionSum(n), PositionSquareSum(n));
    }
  }

  /** The denominator from the closed forms of Σx and Σx², for r >= 2 points. */
  lemma SpreadOfPositions(r: real, sx: real, sxx: real)
    requires r >= 2.0
    requires sx == r * (r - 1.0) / 2.0 && sxx == (r - 1.0) * r * (2.0 * r - 1.0) / 6.0
    ensures Denominator(r, sx, sxx) > 0.0
  {
    SpreadIdentity(r);
    SpreadPositive(r);
  }

  lemma SpreadIdentity(r: real)
    ensures Denominator(r, r * (r - 1.0) / 2.0, (r - 1.0) * r * (2.0 * r - 1.0) / 6.0) == r * r * (r * r - 1.0) / 12.0
  {
    assert r * ((r - 1.0) * r * (2.0 * r - 1.0) / 6.0) - (r * (r - 1.0) / 2.0) * (r * (r - 1.0) / 2.0)
        == r * r * (r * r - 1.0) / 12.0;
  }

  lemma SpreadPositive(r: real)
    requires r >= 2.0
    ensures r * r * (r * r - 1.0) / 12.0 > 0.0
  {
    MulLeq(2.0, r, r);
    var a := r * r;
    assert a >= 4.0;
    MulLeq(4.0, a, a - 1.0);
    assert a * (a - 1.0) >= 12.0;
  }

  lemma SqNonNegative(x: real)
    ensures Sq(x) >= 0.0
  {
    if x >= 0.0 {
      MulLeq(0.0, x, x);
    } else {
      MulLeq(x, 0.0, -x);
    }
  }

  /** The least-squares line for n points with sums sy = Σy, sxy = Σx·y,
      sx = Σx and sxx = Σx²: slope = (n·sxy - sx·sy) / (n·sxx - sx²),
      intercept = (sy - slope·sx) / n. */
  function LineThrough(n: real, sy: real, sxy: real, sx: real, sxx: real): Line
    requires n > 0.0 && Denominator(n, sx, sxx) != 0.0
  {
    var slope := (n * sxy - sx * sy) / Denominator(n, sx, sxx);
    Line((sy - slope * sx) / n, slope)
  }

  /** The least-squares line through the points (k, ys[k]), k = 0 .. |ys|-1. */
  function Fit(ys: seq<real>): Line
    requires |ys| >= 2
  {
    SpreadClosedForm(|ys|);
    LineThrough(|ys| as real, Sum(ys), Moment(ys), PositionSum(|ys|), PositionSquareSum(|ys|))
  }

  /** The fitted line evaluated at the newest point, x = |ys| - 1. */
  function Projection(ys: seq<real>): real
    requires |ys| >= 2
  {
    Fit(ys).At((|ys| - 1) as real)
  }

  /** The residuals ys[k] - line(k) of the points (k, ys[k]). */
  function Residuals(ys: seq<real>, line: Line): (rs: seq<real>)
    ensures |rs| == |ys|
    ensures forall k :: 0 <= k < |ys| ==> rs[k] == ys[k] - line.At(k as real)
  {
    seq(|ys|, k requires 0 <= k < |ys| => ys[k] - line.At(k as real))
  }

  /** Σ s[k]² */
  function SquareSum(s: seq<real>): real
  {
    if |s| == 0 then 0.0 else SquareSum(Init(s)) + Sq(Last(s))
  }

  /** Σ s[k]·t[k] */
  function ProductSum(s: seq<real>, t: seq<real>): real
    requires |s| == |t|
  {
    if |s| == 0 then 0.0 else ProductSum(Init(s), Init(t)) + Last(s) * Last(t)
  }

  /** Σ (ys[k] - line(k))², what least squares minimises. */
  function SquaredError(ys: seq<real>, line: Line): real
  {
    SquareSum(Residuals(ys, line))
  }

  /** Σ (y - line(x)) in terms of n = Σ1, sy = Σy and sx = Σx. */
  function ClosedSum(n: real, sy: real, sx: real, line: Line): real
  {
    sy - n * line.intercept - line.slope * sx
  }

  /** Σ x·(y - line(x)) in terms of sxy = Σx·y, sx = Σx and sxx = Σx². */
  function ClosedMoment(sxy: real, sx: real, sxx: real, line: Line): real
  {
    sxy - line.intercept * sx - line.slope * sxx
  }

  /** The line solves the least-squares equations for the given sums:
      (n·sxx - sx²)·slope = n·sxy - sx·sy and n·intercept = sy - slope·sx. */
  ghost predicate SolvesLeastSquares(n: real, sy: real, sxy: real, sx: real, sxx: real, line: Line)
  {
    n > 0.0
    && Denominator(n, sx, sxx) * line.slope == n * sxy - sx * sy
    && n * line.intercept == sy - line.slope * sx
  }

  /** One point's share of ResidualSumClosedForm, on plain numbers. */
  lemma SumStep(n: real, x: real, sy: real, ps: real, rs: real, y: real, r: real, line: Line)
    requires x == n - 1.0
    requires rs == ClosedSum(x, sy, ps, line)
    requires r == y - line.At(x)
    ensures rs + r == ClosedSum(n, sy + y, ps + x, line)
  {
  }

  /** Σ (ys[k] - line(k)) = Σ ys[k] - n·intercept - slope·Σ k, for any
      sequence rs holding those residuals. */
  lemma {:induction false} ResidualSumClosedForm(ys: seq<real>, rs: seq<real>, line: Line)
    requires |rs| == |ys|
    requires forall k :: 0 <= k < |ys| ==> rs[k] == ys[k] - line.At(k as real)
    ensures Sum(rs) == ClosedSum(|ys| as real, Sum(ys), PositionSum(|ys|), line)
  {
    if |ys| > 0 {
      var n := |ys|;
      ResidualSumClosedForm(Init(ys), Init(rs), line);
      assert Last(rs) == Last(ys) - line.At((n - 1) as real);
      SumStep(n as real, (n - 1) as real, Sum(Init(ys)), PositionSum(n - 1), Sum(Init(rs)),
              Last(ys), Last(rs), line);
    }
  }

  /** One point's share of ResidualMomentClosedForm, on plain numbers. */
  lemma MomentStep(sxy: real, ps: real, pss: real, rm: real, y: real, r: real, x: real, line: Line)
    requires rm == ClosedMoment(sxy, ps, pss, line)
    requires r == y - line.At(x)
    ensures rm + x * r == ClosedMoment(sxy + x * y, ps + x, pss + Sq(x), line)
  {
  }

  /** Σ k·(ys[k] - line(k)) = Σ k·ys[k] - intercept·Σ k - slope·Σ k² */
  lemma {:induction false} ResidualMomentClosedForm(ys: seq<real>, rs: seq<real>, line: Line)
    requires |rs| == |ys|
    requires forall k :: 0 <= k < |ys| ==> rs[k] == ys[k] - line.At(k as real)
    ensures Moment(rs) == ClosedMoment(Moment(ys), PositionSum(|ys|), PositionSquareSum(|ys|), line)
  {
    if |ys| > 0 {
      var n := |ys|;
      ResidualMomentClosedForm(Init(ys), Init(rs), line);
      assert Last(rs) == Last(ys) - line.At((n - 1) as real);
      MomentStep(Moment(Init(ys)), PositionSum(n - 1), PositionSquareSum(n - 1),
                 Moment(Init(rs)), Last(ys), Last(rs), (n - 1) as real, line);
    }
  }

  /** Both closed forms for the residuals of a given line. */
  lemma ResidualClosedForms(ys: seq<real>, line: Line)
    ensures Sum(Residuals(ys, line)) == ClosedSum(|ys| as real, Sum(ys), PositionSum(|ys|), line)
    ensures Moment(Residuals(ys, line)) == ClosedMoment(Moment(ys), PositionSum(|ys|), PositionSquareSum(|ys|), line)
  {
    ResidualSumClosedForm(ys, Residuals(ys, line), line);
    ResidualMomentClosedForm(ys, Residuals(ys, line), line);
  }

  /** The closed-form line solves the least-squares equations. */
  lemma LineThroughSolves(n: real, sy: real, sxy: real, sx: real, sxx: real)
    requires n > 0.0 && Denominator(n, sx, sxx) != 0.0
    ensures SolvesLeastSquares(n, sy, sxy, sx, sxx, LineThrough(n, sy, sxy, sx, sxx))
  {
    var d := Denominator(n, sx, sxx);
    var slope := (n * sxy - sx * sy) / d;
    assert d * slope == n * sxy - sx * sy;
    assert n * ((sy - slope * sx) / n) == sy - slope * sx;
  }

  /** The fit solves the least-squares equations of its points. */
  lemma FitSolvesLeastSquares(ys: seq<real>)
    requires |ys| >= 2
    ensures SolvesLeastSquares(|ys| as real, Sum(ys), Moment(ys), PositionSum(|ys|), PositionSquareSum(|ys|), Fit(ys))
  {
    SpreadClosedForm(|ys|);
    LineThroughSolves(|ys| as real, Sum(ys), Moment(ys), PositionSum(|ys|), PositionSquareSum(|ys|));
  }

  /** The algebra behind the normal equations, on plain numbers: a solution
      of the least-squares equations leaves residuals of sum and moment zero. */
  lemma NormalEquationsAlgebra(n: real, sy: real, sxy: real, sx: real, sxx: real, line: Line)
    requires SolvesLeastSquares(n, sy, sxy, sx, sxx, line)
    ensures ClosedSum(n, sy, sx, line) == 0.0
    ensures ClosedMoment(sxy, sx, sxx, line) == 0.0
  {
    MomentVanishes(n, sy, sxy, sx, sxx, line.intercept, line.slope);
  }

  /** The moment equation from the two least-squares equations, on plain numbers. */
  lemma MomentVanishes(n: real, sy: real, sxy: real, sx: real, sxx: real, a: real, b: real)
    requires n > 0.0
    requires Denominator(n, sx, sxx) * b == n * sxy - sx * sy
    requires n * a == sy - b * sx
    ensures sxy - a * sx - b * sxx == 0.0
  {
    var m := sxy - a * sx - b * sxx;
    assert n * m == n * sxy - (n * a) * sx - b * (n * sxx);
    assert (n * a) * sx == (sy - b * sx) * sx;
    assert n * m == (n * sxy - sx * sy) - Denominator(n, sx, sxx) * b;
    assert n * m == 0.0;
  }

  /** The residuals of the fit sum to zero and are uncorrelated with the
      positions: the normal equations of least squares. */
  lemma FitSatisfiesNormalEquations(ys: seq<real>)
    requires |ys| >= 2
    ensures Sum(Residuals(ys, Fit(ys))) == 0.0
    ensures Moment(Residuals(ys, Fit(ys))) == 0.0
  {
    FitSolvesLeastSquares(ys);
    NormalEquationsAlgebra(|ys| as real, Sum(ys), Moment(ys), PositionSum(|ys|), PositionSquareSum(|ys|), Fit(ys));
    ResidualClosedForms(ys, Fit(ys));
  }

  /** (b + c)² = b² + 2·b·c + c², with the partial sums carried along. */
  lemma SquareStep(sa: real, sb: real, p: real, sc: real, a: real, b: real, c: real)
    requires sa == sb + 2.0 * p + sc && a == b + c
    ensures sa + Sq(a) == (sb + Sq(b)) + 2.0 * (p + b * c) + (sc + Sq(c))
  {
  }

  /** Σ (b[k] + c[k])² = Σ b[k]² + 2·Σ b[k]·c[k] + Σ c[k]² */
  lemma {:induction false} SquareSumSplit(a: seq<real>, b: seq<real>, c: seq<real>)
    requires |b| == |a| && |c| == |a|
    requires forall k :: 0 <= k < |a| ==> a[k] == b[k] + c[k]
    ensures SquareSum(a) == SquareSum(b) + 2.0 * ProductSum(b, c) + SquareSum(c)
  {
    if |a| > 0 {
      SquareSumSplit(Init(a), Init(b), Init(c));
      SquareStep(SquareSum(Init(a)), SquareSum(Init(b)), ProductSum(Init(b), Init(c)), SquareSum(Init(c)),
                 Last(a), Last(b), Last(c));
    }
  }

  /** One point's share of ProductWithLine, on plain numbers. */
  lemma ProductStep(p: real, s: real, m: real, r: real, g: real, x: real, da: real, db: real)
    requires p == da * s + db * m && g == da + db * x
    ensures p + r * g == da * (s + r) + db * (m + x * r)
  {
  }

  /** Weighting the elements of r by the values da + db·k of a line gives
      da·Σ r[k] + db·Σ k·r[k]. */
  lemma {:induction false} ProductWithLine(r: seq<real>, g: seq<real>, da: real, db: real)
    requires |g| == |r|
    requires forall k :: 0 <= k < |r| ==> g[k] == da + db * (k as real)
    ensures ProductSum(r, g) == da * Sum(r) + db * Moment(r)
  {
    if |r| > 0 {
      ProductWithLine(Init(r), Init(g), da, db);
      ProductStep(ProductSum(Init(r), Init(g)), Sum(Init(r)), Moment(Init(r)), Last(r), Last(g),
                  (|r| - 1) as real, da, db);
    }
  }

  lemma {:induction false} SquareSumNonNegative(s: seq<real>)
    ensures SquareSum(s) >= 0.0
  {
    if |s| > 0 {
      SquareSumNonNegative(Init(s));
      SqNonNegative(Last(s));
    }
  }

  /** The vertical distance between two lines is itself linear in x. */
  lemma LineDifference(x: real, l: Line, m: Line)
    ensures l.At(x) - m.At(x) == (l.intercept - m.intercept) + (l.slope - m.slope) * x
  {
  }

  /** The vertical offsets l(k) - m(k) between two lines at k = 0 .. n-1. */
  function Offsets(n: nat, l: Line, m: Line): (g: seq<real>)
    ensures |g| == n
    ensures forall k :: 0 <= k < n ==> g[k] == l.At(k as real) - m.At(k as real)
  {
    seq(n, k requires 0 <= k < n => l.At(k as real) - m.At(k as real))
  }

  /** Moving from line l to line m adds the offsets to every residual, so
      the squared error of m is that of l plus a cross term plus the
      squared offsets. */
  lemma SquaredErrorShift(ys: seq<real>, l: Line, m: Line)
    ensures SquaredError(ys, m)
         == SquaredError(ys, l) + 2.0 * ProductSum(Residuals(ys, l), Offsets(|ys|, l, m)) + SquareSum(Offsets(|ys|, l, m))
  {
    var r, r', g := Residuals(ys, l), Residuals(ys, m), Offsets(|ys|, l, m);
    forall k | 0 <= k < |ys|
      ensures r'[k] == r[k] + g[k]
    {
    }
    SquareSumSplit(r', r, g);
  }

  /** Residuals that satisfy the normal equations are uncorrelated with the
      offsets to any other line. */
  lemma CrossTermVanishes(ys: seq<real>, l: Line, m: Line)
    requires Sum(Residuals(ys, l)) == 0.0 && Moment(Residuals(ys, l)) == 0.0
    ensures ProductSum(Residuals(ys, l), Offsets(|ys|, l, m)) == 0.0
  {
    var g := Offsets(|ys|, l, m);
    var da, db := l.intercept - m.intercept, l.slope - m.slope;
    forall k | 0 <= k < |ys|
      ensures g[k] == da + db * (k as real)
    {
      LineDifference(k as real, l, m);
    }
    ProductWithLine(Residuals(ys, l), g, da, db);
  }

  /** No straight line has a smaller sum of squared residuals than the fit. */
  lemma FitMinimisesSquaredError(ys: seq<real>, other: Line)
    requires |ys| >= 2
    ensures SquaredError(ys, Fit(ys)) <= SquaredError(ys, other)
  {
    SquaredErrorShift(ys, Fit(ys), other);
    FitSatisfiesNormalEquations(ys);
    CrossTermVanishes(ys, Fit(ys), other);
    SquareSumNonNegative(Offsets(|ys|, Fit(ys), other));
  }

  /** The algebra of FitReproducesExactLine, on plain numbers: when the
      closed-form residuals of a line vanish, the least-squares equations have
      that line as their only solution. */
  lemma ExactLineAlgebra(n: real, sy: real, sxy: real, sx: real, sxx: real, line: Line, fit: Line)
    requires Denominator(n, sx, sxx) != 0.0
    requires SolvesLeastSquares(n, sy, sxy, sx, sxx, fit)
    requires ClosedSum(n, sy, sx, line) == 0.0 && ClosedMoment(sxy, sx, sxx, line) == 0.0
    ensures fit == line
  {
    var den := Denominator(n, sx, sxx);
    var a, b := line.intercept, line.slope;
    assert sy == n * a + b * sx && sxy == a * sx + b * sxx;
    assert den * fit.slope == den * b;
    assert n * fit.intercept == n * a;
  }

  /** A sequence of zeros has zero sum and zero moment. */
  lemma {:induction false} ZeroSums(s: seq<real>)
    requires forall k :: 0 <= k < |s| ==> s[k] == 0.0
    ensures Sum(s) == 0.0 && Moment(s) == 0.0
  {
    if |s| > 0 {
      ZeroSums(Init(s));
    }
  }

  /** When the points already lie on a straight line, the fit is that line,
      and the projection reproduces the newest point. */
  lemma FitReproducesExactLine(ys: seq<real>, line: Line)
    requires |ys| >= 2
    requires forall k :: 0 <= k < |ys| ==> ys[k] == line.At(k as real)
    ensures Fit(ys) == line
    ensures Projection(ys) == Last(ys)
  {
    var n := |ys|;
    ZeroSums(Residuals(ys, line));
    ResidualClosedForms(ys, line);
    FitSolvesLeastSquares(ys);
    SpreadClosedForm(n);
    ExactLineAlgebra(n as real, Sum(ys), Moment(ys), PositionSum(n), PositionSquareSum(n), line, Fit(ys));
  }
}
