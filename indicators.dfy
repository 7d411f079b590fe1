/** The indicator engine (IndicatorCalculationService in
    StockTracker/Services/StockDataService.cs): four series of the same length
    as the price series, NaN where the series is undefined.

    Each series has a specification function (LinearRegression, Wma, Ema,
    Combined) and a method that computes it the way the service does, by
    filling an array with NaN and overwriting it in loops. Prices arrive as
    decimals and are converted to doubles; both are modelled as reals. */
module Indicators {
  import opened Models
  import opened Series
  import opened LeastSquares

  // ---------------------------------------------------------------------
  // The window

  /** C#'s (int) cast of a double: truncation toward zero. */
  function Truncate(x: real): (t: int)
    ensures 0.0 <= x ==> t as real <= x < t as real + 1.0
    ensures x < 0.0 ==> t as real - 1.0 < x <= t as real
  {
    if x >= 0.0 then x.Floor else -((-x).Floor)
  }

  /** Math.Max(2, (int)(count * percentage / 100.0)): the window both the
      combined indicator and the stock view model use. */
  function WindowSize(count: nat, percentage: int): (w: int)
    ensures w >= 2
  {
    var t := Truncate((count * percentage) as real / 100.0);
    if 2 >= t then 2 else t
  }

  /** For a non-negative percentage the window is max(2, ⌊count·percentage/100⌋). */
  lemma WindowSizeFloor(count: nat, percentage: int)
    requires percentage >= 0
    ensures WindowSize(count, percentage) == if count * percentage / 100 <= 2 then 2 else count * percentage / 100
  {
    var a := count * percentage;
    MulLeq(0.0, count as real, percentage as real);
    TruncateHundredth(a);
  }

  lemma TruncateHundredth(a: int)
    requires a >= 0
    ensures Truncate(a as real / 100.0) == a / 100
  {
    var q, m := a / 100, a % 100;
    assert a as real / 100.0 == q as real + m as real / 100.0;
    var t := Truncate(a as real / 100.0);
    assert t as real <= q as real + m as real / 100.0 < q as real + 1.0;
    assert q as real <= a as real / 100.0 < t as real + 1.0;
  }

  /** With a percentage of at most 100 the window never exceeds a series of
      two or more prices. */
  lemma WindowFitsSeries(count: nat, percentage: int)
    requires count >= 2 && 0 <= percentage <= 100
    ensures WindowSize(count, percentage) <= count
  {
    WindowSizeFloor(count, percentage);
    MulLeq(percentage as real, 100.0, count as real);
    assert count * percentage <= count * 100;
  }

  /** The clamp to 2 makes the window exceed every series of at most one price. */
  lemma WindowExceedsShortSeries(count: nat, percentage: int)
    requires count <= 1
    ensures WindowSize(count, percentage) > count
  {
  }

  /** The `window` prices ending at index i: Skip(i - window + 1).Take(window). */
  function Window(prices: seq<real>, window: int, i: int): (w: seq<real>)
    requires 1 <= window && window - 1 <= i < |prices|
    ensures |w| == window
    ensures forall j :: 0 <= j < window ==> w[j] == prices[i - window + 1 + j]
  {
    prices[i - window + 1 .. i + 1]
  }

  // ---------------------------------------------------------------------
  // Linear regression

  /** Entry i of the linear-regression series: NaN before the first full
      window, then the least-squares line of the window evaluated at its
      newest point. */
  function RegressionAt(prices: seq<real>, window: int, i: int): Double
    requires window >= 2 && 0 <= i < |prices|
  {
    if i < window - 1 then NaN else Num(Projection(Window(prices, window, i)))
  }

  /** The rolling least-squares line over positions 0 .. window-1, evaluated
      at the newest point of each window. */
  function LinearRegression(prices: seq<real>, window: int): (r: seq<Double>)
    requires window >= 2
    ensures |r| == |prices|
    ensures forall i :: 0 <= i < |prices| ==> (r[i] == NaN <==> i < window - 1)
  {
    seq(|prices|, i requires 0 <= i < |prices| => RegressionAt(prices, window, i))
  }

  method CalculateLinearRegression(prices: seq<real>, window: int) returns (result: seq<Double>)
    requires window >= 2
    ensures result == LinearRegression(prices, window)
  {
    var a := new Double[|prices|](_ => NaN);
    var i := window - 1;
    while i < |prices|
      invariant window - 1 <= i
      invariant i == window - 1 || i <= |prices|
      invariant forall k :: 0 <= k < |prices| ==>
        a[k] == if window - 1 <= k < i then RegressionAt(prices, window, k) else NaN
    {
      var regression := Fit(Window(prices, window, i));
      a[i] := Num(regression.At((window - 1) as real));
      i := i + 1;
    }
    result := a[..];
  }

  /** Every defined entry is the newest point of the least-squares line of
      its window: no other line fits the window with a smaller squared error. */
  lemma LinearRegressionIsLeastSquares(prices: seq<real>, window: int, i: int, other: Line)
    requires window >= 2 && window - 1 <= i < |prices|
    ensures LinearRegression(prices, window)[i] == Num(Fit(Window(prices, window, i)).At((window - 1) as real))
    ensures SquaredError(Window(prices, window, i), Fit(Window(prices, window, i)))
         <= SquaredError(Window(prices, window, i), other)
  {
    FitMinimisesSquaredError(Window(prices, window, i), other);
  }

  /** Prices on a straight line are reproduced exactly: the regression has
      no lag on a linear trend. */
  lemma LinearRegressionFollowsLinearTrend(prices: seq<real>, window: int, trend: Line, i: int)
    requires window >= 2 && window - 1 <= i < |prices|
    requires forall k :: 0 <= k < |prices| ==> prices[k] == trend.At(k as real)
    ensures LinearRegression(prices, window)[i] == Num(prices[i])
  {
    var w := Window(prices, window, i);
    var start := (i - window + 1) as real;
    var shifted := Line(trend.intercept + trend.slope * start, trend.slope);
    forall j | 0 <= j < |w|
      ensures w[j] == shifted.At(j as real)
    {
      assert w[j] == trend.At(start + j as real);
    }
    FitReproducesExactLine(w, shifted);
  }

  // ---------------------------------------------------------------------
  // Weighted moving average

  /** Entry i of the WMA series: NaN before the first full window, then the
      window's prices weighted 1 .. window, divided by the sum of the weights. */
  function WmaAt(prices: seq<real>, window: int, i: int): Double
    requires window >= 1 && 0 <= i < |prices|
  {
    if i < window - 1 then NaN else Num(WeightedSum(Window(prices, window, i)) / Triangle(window))
  }

  /** The linearly weighted moving average: weight j+1 for the j-th price of
      the window. */
  function Wma(prices: seq<real>, window: int): (r: seq<Double>)
    requires window >= 1
    ensures |r| == |prices|
    ensures forall i :: 0 <= i < |prices| ==> (r[i] == NaN <==> i < window - 1)
  {
    seq(|prices|, i requires 0 <= i < |prices| => WmaAt(prices, window, i))
  }

  method CalculateWMA(prices: seq<real>, window: int) returns (result: seq<Double>)
    requires window >= 1
    ensures result == Wma(prices, window)
  {
    var a := new Double[|prices|](_ => NaN);
    var i := window - 1;
    while i < |prices|
      invariant window - 1 <= i
      invariant i == window - 1 || i <= |prices|
      invariant forall k :: 0 <= k < |prices| ==>
        a[k] == if window - 1 <= k < i then WmaAt(prices, window, k) else NaN
    {
      var start := i - window + 1;
      var sum, weightSum := WindowWeightedSums(prices, start, window);
      assert prices[start .. start + window] == Window(prices, window, i);
      a[i] := Num(sum / weightSum);
      i := i + 1;
    }
    result := a[..];
  }

  /** The inner loop of CalculateWMA: the window's prices summed with
      weights 1..window, and the weights summed. */
  method WindowWeightedSums(prices: seq<real>, start: int, window: int) returns (sum: real, weightSum: real)
    requires 0 <= start && 1 <= window && start + window <= |prices|
    ensures sum == WeightedSum(prices[start .. start + window])
    ensures weightSum == Triangle(window)
  {
    sum, weightSum := 0.0, 0.0;
    for j := 0 to window
      invariant sum == WeightedSum(prices[start .. start + j])
      invariant weightSum == Triangle(j)
    {
      var weight := j + 1;
      WeightedSumExtend(prices, start, j);
      sum := sum + prices[start + j] * weight as real;
      weightSum := weightSum + weight as real;
    }
  }

  /** Extending a slice by one price adds that price at the next weight. */
  lemma WeightedSumExtend(prices: seq<real>, start: int, j: int)
    requires 0 <= start && 0 <= j && start + j < |prices|
    ensures WeightedSum(prices[start .. start + j + 1])
         == WeightedSum(prices[start .. start + j]) + prices[start + j] * (j + 1) as real
  {
    assert Init(prices[start .. start + j + 1]) == prices[start .. start + j];
  }

  /** The weights add up to window·(window+1)/2, and every defined entry lies
      between the smallest and the largest price of its window. */
  lemma WmaWithinWindow(prices: seq<real>, window: int, i: int)
    requires window >= 1 && window - 1 <= i < |prices|
    ensures Triangle(window) == (window as real) * (window as real + 1.0) / 2.0
    ensures Wma(prices, window)[i].Num?
    ensures Min(Window(prices, window, i)) <= Wma(prices, window)[i].value <= Max(Window(prices, window, i))
  {
    var w := Window(prices, window, i);
    TriangleClosedForm(window);
    WeightedMeanBounds(w, Min(w), Max(w));
  }

  /** Raising every price strictly raises every defined entry. */
  lemma WmaStrictlyMonotone(prices: seq<real>, raised: seq<real>, window: int, i: int)
    requires window >= 1 && window - 1 <= i < |prices| == |raised|
    requires forall k :: 0 <= k < |prices| ==> prices[k] < raised[k]
    ensures Wma(prices, window)[i].value < Wma(raised, window)[i].value
  {
    var w, w' := Window(prices, window, i), Window(raised, window, i);
    WeightedSumStrictlyMonotone(w, w');
    QuotientLess(WeightedSum(w), WeightedSum(w'), Triangle(window));
  }

  /** On strictly rising prices the WMA rises strictly from each defined
      entry to the next: the next window is the current one moved up by one
      price, so each weight lands on a larger price. */
  lemma WmaRisesWithPrices(prices: seq<real>, window: int, i: int)
    requires window >= 1 && window - 1 <= i && i + 1 < |prices|
    requires StrictlyIncreasing(prices)
    ensures Wma(prices, window)[i].value < Wma(prices, window)[i + 1].value
  {
    var w, w' := Window(prices, window, i), Window(prices, window, i + 1);
    forall k | 0 <= k < window
      ensures w[k] < w'[k]
    {
      assert w[k] == prices[i - window + 1 + k] && w'[k] == prices[i - window + 1 + k + 1];
    }
    WeightedSumStrictlyMonotone(w, w');
    QuotientLess(WeightedSum(w), WeightedSum(w'), Triangle(window));
  }

  // ---------------------------------------------------------------------
  // Exponential moving average

  /** The smoothing factor 2 / (window + 1). */
  function Alpha(window: int): (alpha: real)
    requires window >= 1
    ensures 0.0 < alpha <= 1.0
    ensures window >= 2 ==> alpha < 1.0
  {
    2.0 / (window as real + 1.0)
  }

  /** One step of the recurrence: α·price + (1 - α)·previous. */
  function EmaStep(alpha: real, price: real, previous: real): real
  {
    alpha * price + (1.0 - alpha) * previous
  }

  /** The EMA at index i >= window - 1: the mean of the first window at
      window - 1, then one recurrence step per later price. */
  function EmaValue(prices: seq<real>, window: int, i: int): real
    requires 1 <= window && window - 1 <= i < |prices|
    decreases i
  {
    if i == window - 1 then Mean(prices[..window])
    else EmaStep(Alpha(window), prices[i], EmaValue(prices, window, i - 1))
  }

  /** Entry i of the EMA series, for a window that fits the prices. */
  function EmaAt(prices: seq<real>, window: int, i: int): Double
    requires 1 <= window <= |prices| && 0 <= i < |prices|
  {
    if i < window - 1 then NaN else Num(EmaValue(prices, window, i))
  }

  /** The EMA series. The seed is written to index window - 1 whether or not
      that index exists, so a window outside 1 .. |prices| raises an
      index-out-of-range instead of returning an all-NaN series. */
  function Ema(prices: seq<real>, window: int): (r: Result<seq<Double>, Exception>)
    ensures r.Failure? <==> window < 1 || window > |prices|
    ensures r.Success? ==> |r.value| == |prices|
    ensures r.Success? ==> forall i :: 0 <= i < |prices| ==> (r.value[i] == NaN <==> i < window - 1)
  {
    if window < 1 || window > |prices| then Failure(IndexOutOfRange)
    else Success(seq(|prices|, i requires 0 <= i < |prices| => EmaAt(prices, window, i)))
  }

  method CalculateEMA(prices: seq<real>, window: int) returns (r: Result<seq<Double>, Exception>)
    ensures r == Ema(prices, window)
  {
    var a := new Double[|prices|](_ => NaN);
    var sum := 0.0;
    var i := 0;
    while i < window && i < |prices|
      invariant 0 <= i <= |prices|
      invariant i == 0 || i <= window
      invariant sum == Sum(prices[..i])
    {
      assert Init(prices[..i + 1]) == prices[..i];
      sum := sum + prices[i];
      i := i + 1;
    }
    if window - 1 < 0 || window - 1 >= |prices| {
      return Failure(IndexOutOfRange);
    }
    a[window - 1] := Num(sum / window as real);
    var alpha := Alpha(window);
    i := window;
    while i < |prices|
      invariant window <= i <= |prices|
      invariant forall k :: 0 <= k < |prices| ==>
        a[k] == if k < i then EmaAt(prices, window, k) else NaN
    {
      a[i] := Num(EmaStep(alpha, prices[i], a[i - 1].value));
      i := i + 1;
    }
    assert a[..] == Ema(prices, window).value;
    return Success(a[..]);
  }

  /** A weighted average with weight a in [0, 1] stays within [lo, hi]. */
  lemma ConvexStep(lo: real, hi: real, x: real, y: real, a: real)
    requires 0.0 <= a <= 1.0 && lo <= x <= hi && lo <= y <= hi
    ensures lo <= a * x + (1.0 - a) * y <= hi
  {
    MulNonNegative(a, x - lo);
    MulNonNegative(1.0 - a, y - lo);
    MulNonNegative(a, hi - x);
    MulNonNegative(1.0 - a, hi - y);
    assert a * x + (1.0 - a) * y - lo == a * (x - lo) + (1.0 - a) * (y - lo);
    assert hi - (a * x + (1.0 - a) * y) == a * (hi - x) + (1.0 - a) * (hi - y);
  }

  /** Every EMA value lies within the range of the prices seen so far. */
  lemma {:induction false} EmaWithinRange(prices: seq<real>, window: int, i: int, lo: real, hi: real)
    requires 1 <= window && window - 1 <= i < |prices|
    requires forall k :: 0 <= k <= i ==> lo <= prices[k] <= hi
    ensures lo <= EmaValue(prices, window, i) <= hi
    decreases i
  {
    if i == window - 1 {
      MeanBounds(prices[..window], lo, hi);
    } else {
      EmaWithinRange(prices, window, i - 1, lo, hi);
      ConvexStep(lo, hi, prices[i], EmaValue(prices, window, i - 1), Alpha(window));
    }
  }

  /** On strictly rising prices the EMA stays strictly below the price:
      unlike the regression it lags a trend. */
  lemma {:induction false} EmaLagsRisingPrices(prices: seq<real>, window: int, i: int)
    requires 2 <= window && window - 1 <= i < |prices|
    requires StrictlyIncreasing(prices)
    ensures EmaValue(prices, window, i) < prices[i]
    decreases i
  {
    if i == window - 1 {
      var p := prices[..window];
      forall k | 0 <= k < |p| - 1
        ensures p[k] < p[k + 1]
      {
        assert p[k] == prices[k] && p[k + 1] == prices[k + 1];
      }
      MeanBelowLast(p);
      assert Last(p) == prices[i];
    } else {
      var prev := EmaValue(prices, window, i - 1);
      EmaLagsRisingPrices(prices, window, i - 1);
      assert prices[i - 1] < prices[i];
      EmaStepBelow(Alpha(window), prices[i], prev);
    }
  }

  /** On strictly rising prices the EMA rises strictly from each defined
      entry to the next: it lags below the price, so the next step pulls it
      up towards an even higher price. */
  lemma EmaRisesWithPrices(prices: seq<real>, window: int, i: int)
    requires 2 <= window && window - 1 <= i && i + 1 < |prices|
    requires StrictlyIncreasing(prices)
    ensures Ema(prices, window).Success?
    ensures Ema(prices, window).value[i].value < Ema(prices, window).value[i + 1].value
  {
    var previous := EmaValue(prices, window, i);
    EmaLagsRisingPrices(prices, window, i);
    assert prices[i] < prices[i + 1];
    EmaStepAbove(Alpha(window), prices[i + 1], previous);
    assert Ema(prices, window).value[i + 1] == Num(EmaValue(prices, window, i + 1));
  }

  /** A step with a positive weight from a value below the price rises. */
  lemma EmaStepAbove(alpha: real, price: real, previous: real)
    requires 0.0 < alpha && previous < price
    ensures previous < EmaStep(alpha, price, previous)
  {
    var gap := price - previous;
    MulLess(0.0, alpha, gap);
    assert EmaStep(alpha, price, previous) == previous + alpha * gap;
  }

  /** A step with a weight below 1 from a value below the price stays below it. */
  lemma EmaStepBelow(alpha: real, price: real, previous: real)
    requires 0.0 < alpha < 1.0 && previous < price
    ensures EmaStep(alpha, price, previous) < price
  {
    var gap := price - previous;
    MulLess(alpha, 1.0, gap);
    assert EmaStep(alpha, price, previous) == previous + alpha * gap;
  }

  // ---------------------------------------------------------------------
  // Combined indicator

  /** One fused entry: defined only when all three inputs are. */
  function Fuse(lr: Double, wma: Double, ema: Double, lrNorm: real, wmaNorm: real, emaNorm: real): (d: Double)
    ensures d != NaN <==> lr != NaN && wma != NaN && ema != NaN
  {
    if lr.Num? && wma.Num? && ema.Num? then Num(lrNorm * lr.value + wmaNorm * wma.value + emaNorm * ema.value)
    else NaN
  }

  /** Three defined values fuse, under the normalised weights, to their mix. */
  lemma FuseOfDefined(lr: Double, wma: Double, ema: Double, settings: IndicatorSettings)
    requires lr.Num? && wma.Num? && ema.Num? && settings.TotalWeight() != 0.0
    ensures Fuse(lr, wma, ema, settings.linearRegressionWeight / settings.TotalWeight(),
                 settings.wmaWeight / settings.TotalWeight(), settings.emaWeight / settings.TotalWeight())
            == Num(Mix(settings, lr.value, wma.value, ema.value))
  {
  }

  /** Entry-by-entry fusion of three series of the same length. */
  function FuseSeries(lr: seq<Double>, wma: seq<Double>, ema: seq<Double>, lrNorm: real, wmaNorm: real, emaNorm: real)
    : (r: seq<Double>)
    requires |wma| == |lr| && |ema| == |lr|
    ensures |r| == |lr|
  {
    seq(|lr|, i requires 0 <= i < |lr| => Fuse(lr[i], wma[i], ema[i], lrNorm, wmaNorm, emaNorm))
  }

  /** The combined indicator: the three series over the common window, fused
      with weights normalised by their total; all NaN when the total is 0. */
  function Combined(prices: seq<real>, settings: IndicatorSettings): (r: Result<seq<Double>, Exception>)
    ensures r.Failure? <==> WindowSize(|prices|, settings.windowPercentage) > |prices|
    ensures r.Success? ==> |r.value| == |prices|
  {
    var window := WindowSize(|prices|, settings.windowPercentage);
    var lr := LinearRegression(prices, window);
    var wma := Wma(prices, window);
    match Ema(prices, window)
    case Failure(e) => Failure(e)
    case Success(ema) =>
      var total := settings.TotalWeight();
      if total == 0.0 then Success(seq(|prices|, _ => NaN))
      else
        var lrNorm := settings.linearRegressionWeight / total;
        var wmaNorm := settings.wmaWeight / total;
        var emaNorm := settings.emaWeight / total;
        Success(FuseSeries(lr, wma, ema, lrNorm, wmaNorm, emaNorm))
  }

  method CalculateCombinedIndicator(prices: seq<real>, settings: IndicatorSettings)
    returns (r: Result<seq<Double>, Exception>)
    ensures r == Combined(prices, settings)
  {
    var window := WindowSize(|prices|, settings.windowPercentage);
    var lr := CalculateLinearRegression(prices, window);
    var wma := CalculateWMA(prices, window);
    var emaResult := CalculateEMA(prices, window);
    if emaResult.Failure? {
      return Failure(emaResult.error);
    }
    var ema := emaResult.value;
    var totalWeight := settings.TotalWeight();
    if totalWeight == 0.0 {
      var empty := new Double[|prices|](_ => NaN);
      assert empty[..] == Combined(prices, settings).value;
      return Success(empty[..]);
    }
    var lrNorm := settings.linearRegressionWeight / totalWeight;
    var wmaNorm := settings.wmaWeight / totalWeight;
    var emaNorm := settings.emaWeight / totalWeight;
    var fused := FuseAll(lr, wma, ema, lrNorm, wmaNorm, emaNorm);
    return Success(fused);
  }

  /** The last loop of CalculateCombinedIndicator: a weighted mix where all
      three series are defined, NaN elsewhere. */
  method FuseAll(lr: seq<Double>, wma: seq<Double>, ema: seq<Double>, lrNorm: real, wmaNorm: real, emaNorm: real)
    returns (fused: seq<Double>)
    requires |wma| == |lr| && |ema| == |lr|
    ensures fused == FuseSeries(lr, wma, ema, lrNorm, wmaNorm, emaNorm)
  {
    var result := new Double[|lr|](_ => NaN);
    for i := 0 to |lr|
      invariant forall k :: 0 <= k < i ==> result[k] == Fuse(lr[k], wma[k], ema[k], lrNorm, wmaNorm, emaNorm)
    {
      if lr[i] != NaN && wma[i] != NaN && ema[i] != NaN {
        result[i] := Num(lrNorm * lr[i].value + wmaNorm * wma[i].value + emaNorm * ema[i].value);
      } else {
        result[i] := NaN;
      }
    }
    assert result[..] == FuseSeries(lr, wma, ema, lrNorm, wmaNorm, emaNorm);
    return result[..];
  }

  /** Fewer than two prices always raise: the window is at least 2. */
  lemma CombinedFailsOnShortSeries(prices: seq<real>, settings: IndicatorSettings)
    requires |prices| <= 1
    ensures Combined(prices, settings).Failure?
  {
    WindowExceedsShortSeries(|prices|, settings.windowPercentage);
  }

  /** With a total weight of 0 every entry that is produced is NaN. */
  lemma CombinedWithoutWeight(prices: seq<real>, settings: IndicatorSettings, i: int)
    requires settings.TotalWeight() == 0.0 && Combined(prices, settings).Success?
    requires 0 <= i < |prices|
    ensures Combined(prices, settings).value[i] == NaN
  {
  }

  /** The normalised weights add up to 1. */
  lemma NormalisedWeightsSumToOne(settings: IndicatorSettings)
    requires settings.TotalWeight() != 0.0
    ensures settings.linearRegressionWeight / settings.TotalWeight() + settings.wmaWeight / settings.TotalWeight()
          + settings.emaWeight / settings.TotalWeight() == 1.0
  {
    var t := settings.TotalWeight();
    assert settings.linearRegressionWeight / t + settings.wmaWeight / t + settings.emaWeight / t
        == (settings.linearRegressionWeight + settings.wmaWeight + settings.emaWeight) / t;
  }

  /** With a non-zero total weight an entry of the combined series is the
      fusion of the three series' entries under the normalised weights. */
  lemma CombinedEntry(prices: seq<real>, settings: IndicatorSettings, i: int)
    requires settings.TotalWeight() != 0.0 && Combined(prices, settings).Success?
    requires 0 <= i < |prices|
    ensures var window := WindowSize(|prices|, settings.windowPercentage);
      Combined(prices, settings).value[i]
      == Fuse(LinearRegression(prices, window)[i], Wma(prices, window)[i], Ema(prices, window).value[i],
              settings.linearRegressionWeight / settings.TotalWeight(), settings.wmaWeight / settings.TotalWeight(),
              settings.emaWeight / settings.TotalWeight())
  {
    var window := WindowSize(|prices|, settings.windowPercentage);
    var fused := FuseSeries(LinearRegression(prices, window), Wma(prices, window), Ema(prices, window).value,
                            settings.linearRegressionWeight / settings.TotalWeight(),
                            settings.wmaWeight / settings.TotalWeight(), settings.emaWeight / settings.TotalWeight());
    assert Combined(prices, settings).value == fused;
  }

  /** With a non-zero total weight an entry is defined exactly from index
      window - 1 on, where all three series are defined. */
  lemma CombinedDefinedFromWindow(prices: seq<real>, settings: IndicatorSettings, i: int)
    requires settings.TotalWeight() != 0.0 && Combined(prices, settings).Success?
    requires 0 <= i < |prices|
    ensures Combined(prices, settings).value[i] != NaN <==> i >= WindowSize(|prices|, settings.windowPercentage) - 1
  {
    CombinedEntry(prices, settings, i);
  }

  /** The normalised weighted mix of three indicator values. */
  function Mix(settings: IndicatorSettings, lr: real, wma: real, ema: real): real
    requires settings.TotalWeight() != 0.0
  {
    var t := settings.TotalWeight();
    settings.linearRegressionWeight / t * lr + settings.wmaWeight / t * wma + settings.emaWeight / t * ema
  }

  /** From index window - 1 on, a combined entry is the normalised weighted
      mix of the LR, WMA and EMA values there. */
  lemma CombinedValueFromWindow(prices: seq<real>, settings: IndicatorSettings, i: int)
    requires settings.TotalWeight() != 0.0 && Combined(prices, settings).Success?
    requires 0 <= i < |prices| && i >= WindowSize(|prices|, settings.windowPercentage) - 1
    ensures var window := WindowSize(|prices|, settings.windowPercentage);
      Combined(prices, settings).value[i]
      == Num(Mix(settings, LinearRegression(prices, window)[i].value, Wma(prices, window)[i].value,
                 Ema(prices, window).value[i].value))
  {
    var window := WindowSize(|prices|, settings.windowPercentage);
    CombinedEntry(prices, settings, i);
    FuseOfDefined(LinearRegression(prices, window)[i], Wma(prices, window)[i], Ema(prices, window).value[i], settings);
  }

  /** With non-negative weights the combined value lies between the smallest
      and the largest of the three indicator values. */
  lemma FuseWithinComponents(lr: real, wma: real, ema: real, settings: IndicatorSettings, lo: real, hi: real)
    requires settings.linearRegressionWeight >= 0.0 && settings.wmaWeight >= 0.0 && settings.emaWeight >= 0.0
    requires settings.TotalWeight() > 0.0
    requires lo <= lr <= hi && lo <= wma <= hi && lo <= ema <= hi
    ensures var t := settings.TotalWeight();
      var d := Fuse(Num(lr), Num(wma), Num(ema), settings.linearRegressionWeight / t, settings.wmaWeight / t,
                    settings.emaWeight / t);
      d.Num? && lo <= d.value <= hi
  {
    var t := settings.TotalWeight();
    var a, b, c := settings.linearRegressionWeight / t, settings.wmaWeight / t, settings.emaWeight / t;
    NormalisedWeightsSumToOne(settings);
    assert a >= 0.0 && b >= 0.0 && c >= 0.0;
    MulNonNegative(a, lr - lo);
    MulNonNegative(b, wma - lo);
    MulNonNegative(c, ema - lo);
    MulNonNegative(a, hi - lr);
    MulNonNegative(b, hi - wma);
    MulNonNegative(c, hi - ema);
    ScaleByOne(lo, a + b + c);
    ScaleByOne(hi, a + b + c);
    assert a * lr + b * wma + c * ema - lo == a * (lr - lo) + b * (wma - lo) + c * (ema - lo);
    assert hi - (a * lr + b * wma + c * ema) == a * (hi - lr) + b * (hi - wma) + c * (hi - ema);
  }

  lemma ScaleByOne(x: real, s: real)
    requires s == 1.0
    ensures x * s == x
  {
  }
}
