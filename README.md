# StockTracker indicator engine and view models in Dafny

StockTracker is a desktop stock watch list. For each tracked symbol it fetches
daily candles from a quote service and shows a price summary. It also draws
four indicator series over the closing prices:

- a rolling least-squares linear regression (LR);
- a linearly weighted moving average (WMA);
- an exponential moving average (EMA) seeded with a simple mean;
- a combined indicator that mixes the three with user-chosen weights.

All four use one window length: a percentage of the series length, truncated
to an integer and never below 2.

This project models that core:

- `Models` holds the value types (candles, stock data, indicator settings,
  time ranges). Doubles and decimals are `real`. `double.NaN` is the
  `NaN` case of `Double`.
- `Series` and `LeastSquares` are reference mathematics: sums, weighted
  sums, bounds, and the ordinary least-squares line through a window. They
  include its normal equations and the proof that it minimises the squared
  error.
- `Indicators` is `IndicatorCalculationService`. The LR, WMA and EMA
  methods fill an array (NaN first, then a loop over the valid positions).
  The combined indicator is all NaN when the weights sum to zero; otherwise
  it fuses the three series position by position. Each method is proved equal to a specification function, and the properties of the
  indicators are lemmas about those functions. An exception thrown by the
  C# code becomes a `Failure(IndexOutOfRange)` result. The one such
  exception is in `CalculateEMA`: it writes the seed at index `window - 1`
  even when the window is longer than the series. So the combined indicator,
  `UpdateIndicators`, the load of a new stock and `ApplyChanges` all raise
  for a series shorter than the window, and the model keeps that behaviour.
- `StockDataService` is the part of `GetStockDataAsync` that runs after the
  quote has been fetched and parsed: the row loop and the price summary.
  The `catch` that turns any exception into `null` becomes `None`.
- `Text` is the ASCII behaviour of `IsNullOrWhiteSpace`, `ToUpper` and
  `Trim` used on the symbol typed by the user.
- `ViewModels` holds two classes:
  - `StockViewModel`: data points, summary fields, four indicator arrays.
  - `MainViewModel`: the tracked list, settings, `WeightSum`, status and
    the commands.

  Their methods update fields in place under `modifies` clauses. A quote
  fetch is a parameter: the parsed chart, or `None` when the request or
  parsing failed. An exception escaping a command is an `Outcome.Fail`.

## Model

| member | source | states |
|---|---|---|
| Models.Closes | StockTracker/ViewModels/ViewModels.cs:295 | the price array has one entry per candle, holding that candle's close, in order |
| Series.Triangle | StockTracker/Services/StockDataService.cs:172-180 | the WMA weight total 1+…+n is at least 1 for a non-empty window, so the division is defined |
| Series.TriangleClosedForm | StockTracker/Services/StockDataService.cs:172-180 | the WMA weight total 1+…+n equals n(n+1)/2 |
| Series.Max | StockTracker/Services/StockDataService.cs:94 | `prices.Max()` bounds every element and is one of them |
| Series.Min | StockTracker/Services/StockDataService.cs:95 | `prices.Min()` bounds every element from below and is one of them |
| Series.MeanBounds | StockTracker/Services/StockDataService.cs:196-201 | the EMA seed (mean of the first window closes) lies between any bounds of those closes |
| Series.WeightedMeanBounds | StockTracker/Services/StockDataService.cs:172-183 | a weight-1..n average lies between any lower and upper bound of the window |
| Series.WeightedSumStrictlyMonotone | StockTracker/Services/StockDataService.cs:172-183 | raising every price of a window strictly raises its weighted sum |
| Series.MeanBelowLast | StockTracker/Services/StockDataService.cs:196-201 | over strictly increasing prices (at least two), the mean is below the last price |
| LeastSquares.PositionSumClosedForm | StockTracker/Services/StockDataService.cs:155 | the positions 0..n-1 used as x values sum to n(n-1)/2 |
| LeastSquares.PositionSquareSumClosedForm | StockTracker/Services/StockDataService.cs:155 | their squares sum to (n-1)n(2n-1)/6 |
| LeastSquares.SpreadClosedForm | StockTracker/Services/StockDataService.cs:155-159 | for n ≥ 2 positions the regression denominator n·Σx² − (Σx)² is positive, so the fit is always defined |
| LeastSquares.FitSatisfiesNormalEquations | StockTracker/Services/StockDataService.cs:158 | the residuals of the fitted line sum to zero and are orthogonal to the positions |
| LeastSquares.SquaredErrorShift | StockTracker/Services/StockDataService.cs:158 | the squared error of any line m equals that of l plus a cross term plus the squared offsets between the lines |
| LeastSquares.CrossTermVanishes | StockTracker/Services/StockDataService.cs:158 | if l satisfies the normal equations, the cross term with every other line is zero |
| LeastSquares.FitMinimisesSquaredError | StockTracker/Services/StockDataService.cs:158 | no line has a smaller sum of squared residuals over the window than the fitted line |
| LeastSquares.FitReproducesExactLine | StockTracker/Services/StockDataService.cs:158-159 | when the window lies exactly on a line, the fit is that line and its projection is the last price |
| Indicators.Truncate | StockTracker/Services/StockDataService.cs:214 | the `(int)` cast rounds toward zero: within one unit of x, on the same side of zero |
| Indicators.WindowSize | StockTracker/Services/StockDataService.cs:214 | the window is never below 2 |
| Indicators.WindowSizeFloor | StockTracker/Services/StockDataService.cs:214 | for a non-negative percentage the window is max(2, ⌊count·percentage/100⌋) |
| Indicators.TruncateHundredth | StockTracker/Services/StockDataService.cs:214 | truncating a/100.0 gives the integer quotient a/100 for non-negative a |
| Indicators.WindowFitsSeries | StockTracker/Services/StockDataService.cs:214 | with at least two prices and a percentage in 0..100 the window fits in the series |
| Indicators.WindowExceedsShortSeries | StockTracker/Services/StockDataService.cs:214 | with zero or one price the window is longer than the series |
| Indicators.Window | StockTracker/Services/StockDataService.cs:156 | `Skip(i-window+1).Take(window)` is the window prices ending at i, in order |
| Indicators.LinearRegression | StockTracker/Services/StockDataService.cs:149-162 | the LR series has one entry per price and is NaN exactly before index window-1 |
| Indicators.CalculateLinearRegression | StockTracker/Services/StockDataService.cs:147-163 | the array loop yields exactly the LR series |
| Indicators.LinearRegressionIsLeastSquares | StockTracker/Services/StockDataService.cs:153-160 | each defined LR value is the fitted line at the window's last position, and that line has least squared error |
| Indicators.LinearRegressionFollowsLinearTrend | StockTracker/Services/StockDataService.cs:153-160 | on prices that follow a straight line, every defined LR value equals the price itself |
| Indicators.Wma | StockTracker/Services/StockDataService.cs:167-183 | the WMA series has one entry per price and is NaN exactly before index window-1 |
| Indicators.CalculateWMA | StockTracker/Services/StockDataService.cs:165-186 | the outer loop over positions yields exactly the WMA series |
| Indicators.WindowWeightedSums | StockTracker/Services/StockDataService.cs:172-180 | the inner loop yields the weighted sum of the window (oldest price weight 1, newest weight n) and the weight total 1+…+n |
| Indicators.WmaWithinWindow | StockTracker/Services/StockDataService.cs:170-183 | each defined WMA value lies between the minimum and maximum of its window; the weight total is n(n+1)/2 |
| Indicators.WmaStrictlyMonotone | StockTracker/Services/StockDataService.cs:170-183 | raising every price strictly raises every defined WMA value |
| Indicators.WmaRisesWithPrices | StockTracker/Services/StockDataService.cs:170-183 | over strictly increasing prices, each defined WMA value is strictly below the next one |
| Indicators.Alpha | StockTracker/Services/StockDataService.cs:193 | the smoothing factor 2/(window+1) is in (0, 1], and below 1 for windows of 2 or more |
| Indicators.Ema | StockTracker/Services/StockDataService.cs:188-209 | EMA fails exactly when the window is below 1 or longer than the series; otherwise one entry per price, NaN exactly before window-1 |
| Indicators.CalculateEMA | StockTracker/Services/StockDataService.cs:188-210 | the seed loop, the seed write and the recurrence loop yield exactly the EMA series or its failure |
| Indicators.EmaWithinRange | StockTracker/Services/StockDataService.cs:196-207 | every EMA value lies between any bounds of the prices up to that index |
| Indicators.EmaLagsRisingPrices | StockTracker/Services/StockDataService.cs:196-207 | over strictly increasing prices, every EMA value is below the current price |
| Indicators.EmaStepBelow | StockTracker/Services/StockDataService.cs:206 | one EMA step from a value below the new price, with a factor in (0, 1), stays below that price |
| Indicators.EmaStepAbove | StockTracker/Services/StockDataService.cs:206 | one EMA step from a value below the new price, with a positive factor, ends strictly above the old value |
| Indicators.EmaRisesWithPrices | StockTracker/Services/StockDataService.cs:196-207 | over strictly increasing prices and a window of at least 2 that fits, EMA succeeds and each defined value is strictly below the next one |
| Indicators.Fuse | StockTracker/Services/StockDataService.cs:235-242 | a combined value is defined exactly when all three component values are defined |
| Indicators.FuseSeries | StockTracker/Services/StockDataService.cs:233-243 | the fused series has one entry per position |
| Indicators.Combined | StockTracker/Services/StockDataService.cs:212-246 | the combined indicator fails exactly when the window exceeds the series, else has one entry per price |
| Indicators.CalculateCombinedIndicator | StockTracker/Services/StockDataService.cs:212-246 | the method yields exactly the combined series or its failure |
| Indicators.FuseAll | StockTracker/Services/StockDataService.cs:233-243 | the fusion loop yields exactly the entry-by-entry fusion of the three series |
| Indicators.CombinedFailsOnShortSeries | StockTracker/Services/StockDataService.cs:214-218 | with fewer than two prices the combined indicator always fails |
| Indicators.CombinedWithoutWeight | StockTracker/Services/StockDataService.cs:221-227 | when the weights sum to 0 every combined entry is NaN |
| Indicators.NormalisedWeightsSumToOne | StockTracker/Services/StockDataService.cs:229-231 | the three normalised weights add up to 1 |
| Indicators.CombinedEntry | StockTracker/Services/StockDataService.cs:229-243 | with a non-zero total weight, each combined entry is the fusion of the LR, WMA and EMA entries at that index under the normalised weights |
| Indicators.CombinedDefinedFromWindow | StockTracker/Services/StockDataService.cs:233-243 | a combined entry is defined exactly from index window-1 on |
| Indicators.CombinedValueFromWindow | StockTracker/Services/StockDataService.cs:229-237 | from index window-1 on, a combined entry is LR·w₁/t + WMA·w₂/t + EMA·w₃/t, with t the total weight |
| Indicators.FuseWithinComponents | StockTracker/Services/StockDataService.cs:229-240 | with non-negative weights of positive total, the mix lies between any common bounds of its three components |
| StockDataService.DecimalAt | StockTracker/Services/StockDataService.cs:72-75 | a column value converts to decimal exactly when its index exists and it is not NaN |
| StockDataService.CollectDataPoints | StockTracker/Services/StockDataService.cs:64-79 | the row loop yields exactly the specified candle list, or nothing once a row raises |
| StockDataService.RaisedRowAborts | StockTracker/Services/StockDataService.cs:64-79 | once a row has raised, the loop's outcome stays a failure |
| StockDataService.CollectFailsIffRowRaises | StockTracker/Services/StockDataService.cs:64-79 | the loop fails exactly when some row raises |
| StockDataService.CollectKeepsDefinedCloses | StockTracker/Services/StockDataService.cs:66-78 | a successful loop keeps exactly the non-NaN closes, in row order |
| StockDataService.Summarize | StockTracker/Services/StockDataService.cs:81-96 | summary exists iff some candle and a non-zero first close; current = last close, change = current − first, percent·first = 100·change, High/Low bound and are attained |
| StockDataService.GetStockData | StockTracker/Services/StockDataService.cs:64-102 | from the parsed chart on, the method yields exactly the specified stock data or null |
| StockDataService.StockDataFromCloses | StockTracker/Services/StockDataService.cs:64-102 | data exists iff no row raises, some close is defined and the first is non-zero; it holds exactly the defined closes, within Low..High |
| Text.UpperChar | StockTracker/ViewModels/ViewModels.cs:118 | an upper-cased character is never a lower-case letter and is white space exactly when the input is |
| Text.ToUpper | StockTracker/ViewModels/ViewModels.cs:118 | upper-casing keeps the length and maps every character |
| Text.TrimStartSpec | StockTracker/ViewModels/ViewModels.cs:118 | TrimStart drops exactly a blank prefix and then starts with a non-blank character |
| Text.TrimEndSpec | StockTracker/ViewModels/ViewModels.cs:118 | TrimEnd drops exactly a blank suffix and then ends with a non-blank character |
| Text.TrimSpec | StockTracker/ViewModels/ViewModels.cs:118 | Trim yields a contiguous part of the input between a blank prefix and a blank suffix, with no blank at either end |
| Text.BlankIffTrimmedEmpty | StockTracker/ViewModels/ViewModels.cs:111-118 | the blank check rejects exactly the inputs that would trim to the empty symbol |
| Text.NormalisedSymbol | StockTracker/ViewModels/ViewModels.cs:111-118 | a symbol that passes the blank check becomes non-empty, has no lower-case letter and has no white space at either end |
| ViewModels.StockViewModel.constructor | StockTracker/ViewModels/ViewModels.cs:265-271 | the new view model holds the data and a copy of its candles, shows its summary, and has empty indicator arrays |
| ViewModels.StockViewModel.UpdateData | StockTracker/ViewModels/ViewModels.cs:273-282 | the data and the candle list are replaced in order, the summary follows, and the indicators are untouched |
| ViewModels.StockViewModel.UpdateProperties | StockTracker/ViewModels/ViewModels.cs:284-291 | the five summary fields show the stock data's summary; nothing else changes |
| ViewModels.StockViewModel.UpdateIndicators | StockTracker/ViewModels/ViewModels.cs:293-302 | LR and WMA are always recomputed. The update succeeds iff the window fits the candles; then EMA and combined are recomputed and the combined series mixes the three stored series. On failure EMA and combined keep their old values |
| ViewModels.IndexOf | StockTracker/ViewModels/ViewModels.cs:154 | the index of the first occurrence of x, or the length when x is absent |
| ViewModels.RemoveFirst | StockTracker/ViewModels/ViewModels.cs:154 | `Remove` leaves the list unchanged when the stock is absent and shortens it by one otherwise |
| ViewModels.RemoveFirstMultiset | StockTracker/ViewModels/ViewModels.cs:154 | `Remove` takes away exactly one occurrence of the stock when there is one, and nothing else |
| ViewModels.RemoveKeepsSymbolsDistinct | StockTracker/ViewModels/ViewModels.cs:148-161 | removing a stock keeps the tracked symbols pairwise distinct |
| ViewModels.UpdateAllIndicators | StockTracker/ViewModels/ViewModels.cs:192-195 | the loop succeeds iff every stock's window fits its candles, and then every stock's indicators are current. When it raises, it names the first stock whose window does not fit: every stock before it has current indicators, that stock has new LR and WMA series but its old EMA and combined series, and every later stock not met earlier in the list keeps its four series. No stock's candles, data or five summary fields change |
| ViewModels.UpdateNext | StockTracker/ViewModels/ViewModels.cs:194 | one pass of that loop: it completes iff the stock's window fits its candles, and then the stocks up to and including it are current while later stocks not met earlier keep their series; when it raises, the stock has new LR and WMA series and its old EMA and combined series, and the stocks before it stay current |
| ViewModels.SymbolsKept | StockTracker/ViewModels/ViewModels.cs:192-195 | when no stock's data changes, the tracked symbols stay pairwise distinct |
| ViewModels.MainViewModel.Settings | StockTracker/ViewModels/ViewModels.cs:57-63 | the settings snapshot's total weight is `WeightSum` whenever `WeightSum` is up to date |
| ViewModels.MainViewModel.constructor | StockTracker/ViewModels/ViewModels.cs:18-85 | starts with no stocks, the seven time ranges with "1 Month" selected, the default settings with `WeightSum` 1, not loading, status "Data refreshed" |
| ViewModels.MainViewModel.InitializeTimeRanges | StockTracker/ViewModels/ViewModels.cs:74-85 | adds the seven ranges in order and selects the second; the refresh it starts ends at once on the empty list |
| ViewModels.MainViewModel.SetLinearRegressionWeight | StockTracker/ViewModels/ViewModels.cs:214-217 | setting the LR weight keeps `WeightSum` equal to the sum of the three weights; the other weights, the window percentage, the list, the selection, the entry, the loading flag, the status and the time ranges are unchanged |
| ViewModels.MainViewModel.SetWmaWeight | StockTracker/ViewModels/ViewModels.cs:219-222 | setting the WMA weight keeps `WeightSum` equal to the sum of the three weights; the other weights, the window percentage, the list, the selection, the entry, the loading flag, the status and the time ranges are unchanged |
| ViewModels.MainViewModel.SetEmaWeight | StockTracker/ViewModels/ViewModels.cs:224-227 | setting the EMA weight keeps `WeightSum` equal to the sum of the three weights; the other weights, the window percentage, the list, the selection, the entry, the loading flag, the status and the time ranges are unchanged |
| ViewModels.FetchedData | StockTracker/ViewModels/ViewModels.cs:98-100 | no data without a selected time range or without an answer from the quote service; data that is found carries the symbol and at least one candle |
| ViewModels.FetchedCloses | StockTracker/ViewModels/ViewModels.cs:98-100 | a load finds data exactly when a range is selected, the service answers, no row raises, some close is defined and the first defined close is not 0; the candles then hold exactly the defined closes of the answer, in order |
| ViewModels.MainViewModel.IsValidSymbol | StockTracker/Services/StockDataService.cs:105-116 | a symbol is invalid when the fetch fails; otherwise it is valid exactly when the fetch yields stock data, so the `Any()` test on line 110 never rejects data that `GetStockDataAsync` returned |
| ViewModels.NewStock | StockTracker/ViewModels/ViewModels.cs:103-104 | the new view model holds the fetched data and its summary; computing its indicators succeeds iff the window fits the candles, and then they are current |
| ViewModels.AppendKeepsSymbolsDistinct | StockTracker/ViewModels/ViewModels.cs:105 | appending a stock whose symbol is not yet tracked keeps the tracked symbols pairwise distinct |
| ViewModels.MainViewModel.LoadStockData | StockTracker/ViewModels/ViewModels.cs:96-107 | with no time range selected or no data fetched, nothing changes and the load completes. With fetched data, the load raises iff the window exceeds its candles, and then nothing changes; otherwise exactly one fresh stock is appended, holding that data and symbol, showing its summary, with current indicators. Status, entry, selection, settings and time ranges are unchanged |
| ViewModels.MainViewModel.AddStock | StockTracker/ViewModels/ViewModels.cs:109-146 | blank input and an already tracked symbol complete and leave everything but the status unchanged; an invalid symbol completes, leaves the list and entry unchanged and stops loading; each sets its message. Otherwise the command raises iff fetched data has too few candles for the window, leaving the list and entry unchanged while still loading; else a fresh stock holding the fetched data (when there is any) is appended with current indicators, the entry is cleared and success is reported. Symbols stay distinct, `WeightSum` stays current, settings, selection and time ranges are unchanged |
| ViewModels.MainViewModel.ValidateAndLoad | StockTracker/ViewModels/ViewModels.cs:126-145 | for an untracked symbol: an invalid one completes, leaves list and entry unchanged, stops loading and reports "Invalid symbol"; otherwise the outcome is that of the load and report step below |
| ViewModels.MainViewModel.LoadAndReport | StockTracker/ViewModels/ViewModels.cs:137-145 | the load raises iff fetched data has too few candles for the window, and then list, entry, status and loading flag are unchanged; otherwise a fresh stock holding the fetched data (when there is any) is appended with current indicators, the entry is cleared, loading stops and success is reported |
| ViewModels.MainViewModel.RemoveSelectedStock | StockTracker/ViewModels/ViewModels.cs:148-161 | without a selection nothing changes; otherwise the first occurrence of the selected stock leaves the list, the selection is cleared and the status names the symbol; settings, entry, loading flag and time ranges are unchanged |
| ViewModels.MainViewModel.ApplyChanges | StockTracker/ViewModels/ViewModels.cs:187-198 | `WeightSum` is brought up to date. The command completes iff every stock's window fits its candles; then every stock's indicators match the current settings and the status is "Changes applied". When it raises, the status is unchanged and the indicator series are those `UpdateAllIndicators` leaves: stocks before the first misfit are current, the misfit has new LR and WMA but old EMA and combined series, and later stocks keep their series. Every stock's candles, data and summary fields, the selection, the entry, the loading flag and the time ranges are unchanged |

## Left out

- Networking, JSON parsing, dates and the clock: `GetStockDataAsync` is
  modelled from the parsed arrays on. The fetch and the parse are
  parameters of the view-model commands (`None` for a failed request or a
  parse exception).
- `LoadSavedStocksAsync` and `SaveStocksAsync`: file I/O. The constructor
  does not load the saved symbols, and the commands do not save the list.
  `LoadSavedStocksAsync` (ViewModels.cs:87-94) calls the load for every
  saved symbol without checking whether it is already tracked, so a saved
  list that repeats a symbol gives repeated stocks. The model's invariant
  that the tracked symbols are distinct (`Valid`), and the untracked-symbol
  precondition of `LoadStockData`, hold only because this caller is left out.
- `RefreshData` with stocks to refresh: it runs one fetch per stock
  concurrently (`Task.WhenAll`). Only its run on the empty list, inside the
  constructor, is modelled. `OnSelectedTimeRangeChanged` is modelled only
  there too.
- `OnSelectedStockChanged` and the two visibility fields: display only.
- The `ValidateStockSymbolAsync` fetch is a parameter of `AddStock`. Its
  five-day date range is not modelled.
- Floating point: doubles and decimals are exact reals. IEEE rounding,
  decimal's 28-digit rounding and its overflow exception are not modelled.
  Summing with `double` vs `decimal` is therefore not distinguished.
- `MathNet.Numerics` `Fit.Line` is replaced by the closed-form ordinary
  least-squares line. It is then proved to have least squared error, which
  is what `Fit.Line` computes up to rounding.
- Indicators.WindowSize: does not model 32-bit overflow of `prices.Length *
  WindowPercentage`. Integers are unbounded, so a percentage large enough
  to overflow gives a different window here.
- Text.UpperChar: maps only ASCII letters. `ToUpper` is culture-sensitive
  and covers all of Unicode.
- Text.IsWhiteSpace: covers only ASCII white space. `char.IsWhiteSpace`
  also accepts Unicode spaces.
- Indicators.CalculateLinearRegression and Indicators.CalculateWMA: require
  a window of at least 2 and at least 1. Every caller passes
  `Math.Max(2, …)`, so smaller windows, where the C# code would throw
  or divide by zero, are not modelled.
- Data binding and change notification (`OnPropertyChanged`) are not
  modelled. The generated property setters are the `Set*Weight` methods
  only.
