/** Record types of the stock tracker (StockTracker/Models/Models.cs), as values,
    together with the small result types the modelled code needs. */
module Models {

  /** A .NET `double` as the indicator code uses it: either NaN (the
      "undefined" marker of an indicator series) or a real number. */
  datatype Double = NaN | Num(value: real)

  datatype Option<T> = None | Some(value: T)

  /** A computation that either completes or raises an exception. */
  datatype Outcome<E> = Pass | Fail(error: E)

  /** A computation that either returns a value or raises an exception. */
  datatype Result<T, E> = Success(value: T) | Failure(error: E)

  /** The exception the indicator code can raise to its callers. */
  datatype Exception = IndexOutOfRange

  /** One daily candle; `date` is kept as the Unix time in seconds it was made from. */
  datatype StockDataPoint = StockDataPoint(
    date: int, close: real, open: real, high: real, low: real, volume: int)

  /** The result of a successful quote fetch, with its price summary. */
  datatype StockData = StockData(
    symbol: string,
    dataPoints: seq<StockDataPoint>,
    currentPrice: real,
    priceChange: real,
    priceChangePercent: real,
    high: real,
    low: real)

  /** The window and the three weights of the combined indicator. */
  datatype IndicatorSettings = IndicatorSettings(
    windowPercentage: int,
    linearRegressionWeight: real,
    wmaWeight: real,
    emaWeight: real)
  {
    function TotalWeight(): real {
      linearRegressionWeight + wmaWeight + emaWeight
    }
  }

  const DefaultSettings := IndicatorSettings(40, 0.33, 0.33, 0.34)

  datatype TimeRange = TimeRange(name: string, days: int)

  /** The closing prices of a list of candles, in order. */
  function Closes(points: seq<StockDataPoint>): (prices: seq<real>)
    ensures |prices| == |points|
    ensures forall k :: 0 <= k < |points| ==> prices[k] == points[k].close
  {
    seq(|points|, k requires 0 <= k < |points| => points[k].close)
  }
}
