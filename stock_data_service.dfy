/** The part of StockDataService.GetStockDataAsync that runs after the quote
    has been fetched and its JSON parsed: the row loop that keeps the candles
    with a defined close, and the price summary built from the kept closes.
    Any exception inside the method is caught and turned into null (None). */
module StockDataService {
  import opened Models
  import opened Series

  /** The arrays read out of the parsed chart, one entry per trading day. */
  datatype ParsedChart = ParsedChart(
    timestamps: seq<int>,
    closes: seq<Double>,
    opens: seq<Double>,
    highs: seq<Double>,
    lows: seq<Double>,
    volumes: seq<int>)

  /** The Unix times, in seconds, that DateTimeOffset.FromUnixTimeSeconds
      accepts (0001-01-01 to 9999-12-31). */
  const MinUnixSeconds: int := -62135596800
  const MaxUnixSeconds: int := 253402300799

  /** values[i] cast to decimal: no value when the index is out of range or
      the double is NaN (both raise). */
  function DecimalAt(values: seq<Double>, i: nat): (d: Option<real>)
    ensures d.Some? <==> i < |values| && values[i].Num?
  {
    if i < |values| && values[i].Num? then Some(values[i].value) else None
  }

  /** The candle built from row i, or no candle when building it raises. */
  function MakePoint(chart: ParsedChart, i: nat): Option<StockDataPoint>
    requires i < |chart.timestamps|
  {
    var close, open, high, low := DecimalAt(chart.closes, i), DecimalAt(chart.opens, i),
                                  DecimalAt(chart.highs, i), DecimalAt(chart.lows, i);
    if MinUnixSeconds <= chart.timestamps[i] <= MaxUnixSeconds
       && close.Some? && open.Some? && high.Some? && low.Some? && i < |chart.volumes|
    then Some(StockDataPoint(chart.timestamps[i], close.value, open.value, high.value, low.value, chart.volumes[i]))
    else None
  }

  /** What the loop does with row i. */
  datatype RowOutcome = Skipped | Kept(point: StockDataPoint) | Raised

  function ReadRow(chart: ParsedChart, i: nat): RowOutcome
    requires i < |chart.timestamps|
  {
    if i >= |chart.closes| then Raised
    else if chart.closes[i] == NaN then Skipped
    else match MakePoint(chart, i)
      case None => Raised
      case Some(p) => Kept(p)
  }

  /** The candles kept from the first n rows, or None once a row has raised. */
  function Collect(chart: ParsedChart, n: nat): Option<seq<StockDataPoint>>
    requires n <= |chart.timestamps|
  {
    if n == 0 then Some([])
    else match Collect(chart, n - 1)
      case None => None
      case Some(points) =>
        match ReadRow(chart, n - 1)
        case Raised => None
        case Skipped => Some(points)
        case Kept(p) => Some(points + [p])
  }

  /** The row loop of GetStockDataAsync. */
  method CollectDataPoints(chart: ParsedChart) returns (r: Option<seq<StockDataPoint>>)
    ensures r == Collect(chart, |chart.timestamps|)
  {
    var dataPoints := [];
    for i := 0 to |chart.timestamps|
      invariant Collect(chart, i) == Some(dataPoints)
    {
      if i >= |chart.closes| {
        RaisedRowAborts(chart, i + 1, |chart.timestamps|);
        return None;
      }
      if chart.closes[i] != NaN {
        var point := MakePoint(chart, i);
        if point.None? {
          RaisedRowAborts(chart, i + 1, |chart.timestamps|);
          return None;
        }
        dataPoints := dataPoints + [point.value];
      }
    }
    return Some(dataPoints);
  }

  /** Once a row has raised, no later row changes the outcome. */
  lemma {:induction false} RaisedRowAborts(chart: ParsedChart, m: nat, n: nat)
    requires m <= n <= |chart.timestamps|
    requires Collect(chart, m) == None
    ensures Collect(chart, n) == None
    decreases n
  {
    if n > m {
      RaisedRowAborts(chart, m, n - 1);
    }
  }

  /** The defined closes of a column, in order. */
  function DefinedCloses(closes: seq<Double>): seq<real>
  {
    if |closes| == 0 then []
    else
      var last := closes[|closes| - 1];
      DefinedCloses(closes[..|closes| - 1]) + (if last.Num? then [last.value] else [])
  }

  /** The loop fails exactly when one of the rows raises. */
  lemma {:induction false} CollectFailsIffRowRaises(chart: ParsedChart, n: nat)
    requires n <= |chart.timestamps|
    ensures Collect(chart, n).None? <==> exists k :: 0 <= k < n && ReadRow(chart, k).Raised?
  {
    if n > 0 {
      CollectFailsIffRowRaises(chart, n - 1);
    }
  }

  /** When the loop succeeds, the kept candles carry exactly the defined
      closes of the rows read, in order. */
  lemma {:induction false} CollectKeepsDefinedCloses(chart: ParsedChart, n: nat)
    requires n <= |chart.timestamps| && Collect(chart, n).Some?
    ensures n <= |chart.closes|
    ensures Closes(Collect(chart, n).value) == DefinedCloses(chart.closes[..n])
  {
    if n > 0 {
      CollectKeepsDefinedCloses(chart, n - 1);
      var points := Collect(chart, n - 1).value;
      assert chart.closes[..n][..n - 1] == chart.closes[..n - 1];
      match ReadRow(chart, n - 1)
      case Skipped =>
      case Kept(p) =>
        assert Closes(points + [p]) == Closes(points) + [p.close];
    }
  }

  /** The price summary of the kept candles: null when there are none, and
      null when the first close is 0 (the percentage divides by it). */
  function Summarize(symbol: string, points: seq<StockDataPoint>): (r: Option<StockData>)
    ensures r.Some? <==> |points| > 0 && points[0].close != 0.0
    ensures r.Some? ==> r.value.symbol == symbol && r.value.dataPoints == points
    ensures r.Some? ==> r.value.currentPrice == points[|points| - 1].close
    ensures r.Some? ==> r.value.priceChange == r.value.currentPrice - points[0].close
    ensures r.Some? ==> r.value.priceChangePercent * points[0].close == r.value.priceChange * 100.0
    ensures r.Some? ==> forall k :: 0 <= k < |points| ==> r.value.low <= points[k].close <= r.value.high
    ensures r.Some? ==> exists k :: 0 <= k < |points| && points[k].close == r.value.high
    ensures r.Some? ==> exists k :: 0 <= k < |points| && points[k].close == r.value.low
  {
    if |points| == 0 then None
    else
      var prices := Closes(points);
      var currentPrice := Last(prices);
      var firstPrice := prices[0];
      if firstPrice == 0.0 then None
      else
        var change := currentPrice - firstPrice;
        Some(StockData(symbol, points, currentPrice, change, change / firstPrice * 100.0, Max(prices), Min(prices)))
  }

  /** GetStockDataAsync from the parsed chart on: the row loop, then the summary. */
  function StockDataFrom(symbol: string, chart: ParsedChart): Option<StockData>
  {
    match Collect(chart, |chart.timestamps|)
    case None => None
    case Some(points) => Summarize(symbol, points)
  }

  method GetStockData(symbol: string, chart: ParsedChart) returns (r: Option<StockData>)
    ensures r == StockDataFrom(symbol, chart)
  {
    var dataPoints := CollectDataPoints(chart);
    if dataPoints.None? {
      return None;
    }
    if |dataPoints.value| == 0 {
      return None;
    }
    r := Summarize(symbol, dataPoints.value);
  }

  /** A fetch yields data exactly when no row raises, some close is defined
      and the first defined close is not 0; the data then holds exactly the
      defined closes in order, and its high and low bound every one of them. */
  lemma StockDataFromCloses(symbol: string, chart: ParsedChart)
    ensures StockDataFrom(symbol, chart).Some?
        <==> (forall k :: 0 <= k < |chart.timestamps| ==> !ReadRow(chart, k).Raised?)
             && |chart.timestamps| <= |chart.closes|
             && |DefinedCloses(chart.closes[..|chart.timestamps|])| > 0
             && DefinedCloses(chart.closes[..|chart.timestamps|])[0] != 0.0
    ensures StockDataFrom(symbol, chart).Some? ==>
      |chart.timestamps| <= |chart.closes| &&
      var d := StockDataFrom(symbol, chart).value;
      Closes(d.dataPoints) == DefinedCloses(chart.closes[..|chart.timestamps|])
      && Between(Closes(d.dataPoints), d.low, d.high)
  {
    var n := |chart.timestamps|;
    CollectFailsIffRowRaises(chart, n);
    if Collect(chart, n).Some? {
      CollectKeepsDefinedCloses(chart, n);
    }
  }
}
