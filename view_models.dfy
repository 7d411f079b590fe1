/** The view models of StockTracker/ViewModels/ViewModels.cs: one
    StockViewModel per tracked stock, holding its candles, its price summary
    and its four indicator series, and the MainViewModel that keeps the list
    of tracked stocks and the indicator settings.

    Calls into the quote service become parameters: a fetch is given as the
    chart it parsed, or None when the request failed or the response could
    not be parsed. Saving the list of symbols to disk is not modelled. */
module ViewModels {
  import opened Models
  import opened Indicators
  import opened StockDataService
  import opened Text

  /** The four indicator series of a stock view model. */
  datatype IndicatorSeries = IndicatorSeries(linearRegression: seq<Double>, wma: seq<Double>, ema: seq<Double>,
                                             combined: seq<Double>)

  class StockViewModel {
    var stockData: StockData
    var dataPoints: seq<StockDataPoint>
    var currentPrice: real
    var priceChange: real
    var priceChangePercent: real
    var high: real
    var low: real
    var combinedIndicator: seq<Double>
    var linearRegression: seq<Double>
    var wma: seq<Double>
    var ema: seq<Double>

    function Symbol(): string
      reads this
    {
      stockData.symbol
    }

    /** The summary fields show the summary of the current stock data. */
    ghost predicate ShowsSummary()
      reads this
    {
      currentPrice == stockData.currentPrice
      && priceChange == stockData.priceChange
      && priceChangePercent == stockData.priceChangePercent
      && high == stockData.high
      && low == stockData.low
    }

    /** The five summary fields are as they were. */
    twostate predicate SummaryKept()
      reads this
    {
      currentPrice == old(currentPrice) && priceChange == old(priceChange)
      && priceChangePercent == old(priceChangePercent) && high == old(high) && low == old(low)
    }

    /** The four indicator series, as one value. */
    function Series(): IndicatorSeries
      reads this
    {
      IndicatorSeries(linearRegression, wma, ema, combinedIndicator)
    }

    /** What a raising UpdateIndicators leaves behind, given the series held
        before: the window exceeds the candles, the linear-regression and WMA
        series are recomputed, and the EMA and combined series are as they
        were. */
    ghost predicate RaisedFrom(before: IndicatorSeries, settings: IndicatorSettings)
      reads this
    {
      var prices := Closes(dataPoints);
      var window := WindowSize(|prices|, settings.windowPercentage);
      window > |prices|
      && linearRegression == LinearRegression(prices, window) && wma == Wma(prices, window)
      && ema == before.ema && combinedIndicator == before.combined
    }

    /** The four series are those of the current candles under the settings. */
    ghost predicate IndicatorsCurrent(settings: IndicatorSettings)
      reads this
    {
      var prices := Closes(dataPoints);
      var window := WindowSize(|prices|, settings.windowPercentage);
      linearRegression == LinearRegression(prices, window)
      && wma == Wma(prices, window)
      && Ema(prices, window).Success? && ema == Ema(prices, window).value
      && Combined(prices, settings).Success? && combinedIndicator == Combined(prices, settings).value
    }

    constructor (data: StockData)
      ensures stockData == data && dataPoints == data.dataPoints && ShowsSummary()
      ensures combinedIndicator == [] && linearRegression == [] && wma == [] && ema == []
    {
      stockData := data;
      dataPoints := data.dataPoints;
      combinedIndicator, linearRegression, wma, ema := [], [], [], [];
      new;
      UpdateProperties();
    }

    /** Replaces the stock data, refills the candle list in order and
        refreshes the summary; the indicator series are left as they are. */
    method UpdateData(data: StockData)
      modifies this
      ensures stockData == data && dataPoints == data.dataPoints && ShowsSummary()
      ensures combinedIndicator == old(combinedIndicator) && linearRegression == old(linearRegression)
      ensures wma == old(wma) && ema == old(ema)
    {
      stockData := data;
      dataPoints := [];
      for i := 0 to |data.dataPoints|
        invariant dataPoints == data.dataPoints[..i] && stockData == data
        invariant combinedIndicator == old(combinedIndicator) && linearRegression == old(linearRegression)
        invariant wma == old(wma) && ema == old(ema)
      {
        dataPoints := dataPoints + [data.dataPoints[i]];
      }
      UpdateProperties();
    }

    method UpdateProperties()
      modifies this
      ensures ShowsSummary()
      ensures stockData == old(stockData) && dataPoints == old(dataPoints)
      ensures combinedIndicator == old(combinedIndicator) && linearRegression == old(linearRegression)
      ensures wma == old(wma) && ema == old(ema)
    {
      currentPrice := stockData.currentPrice;
      priceChange := stockData.priceChange;
      priceChangePercent := stockData.priceChangePercent;
      high := stockData.high;
      low := stockData.low;
    }

    /** Recomputes the four series from the closes of the candles, over the
        window the combined indicator also uses. The linear-regression and
        WMA series are stored before the EMA is computed, so when the EMA
        raises (a window longer than the series) those two are already new
        while the EMA and combined series keep their old values. */
    method UpdateIndicators(settings: IndicatorSettings) returns (outcome: Outcome<Exception>)
      modifies this
      ensures stockData == old(stockData) && dataPoints == old(dataPoints)
      ensures currentPrice == old(currentPrice) && priceChange == old(priceChange)
      ensures priceChangePercent == old(priceChangePercent) && high == old(high) && low == old(low)
      ensures var prices := Closes(dataPoints);
        var window := WindowSize(|prices|, settings.windowPercentage);
        linearRegression == LinearRegression(prices, window)
        && wma == Wma(prices, window)
        && (outcome.Pass? <==> window <= |prices|)
        && (outcome.Pass? ==> IndicatorsCurrent(settings))
        && (outcome.Fail? ==> outcome == Fail(IndexOutOfRange) && ema == old(ema)
                              && combinedIndicator == old(combinedIndicator))
      ensures outcome.Pass? ==>
        |linearRegression| == |dataPoints| && |wma| == |dataPoints| && |ema| == |dataPoints|
        && |combinedIndicator| == |dataPoints|
      ensures outcome.Pass? && settings.TotalWeight() != 0.0 ==>
        var t := settings.TotalWeight();
        combinedIndicator == FuseSeries(linearRegression, wma, ema, settings.linearRegressionWeight / t,
                                        settings.wmaWeight / t, settings.emaWeight / t)
    {
      var prices := Closes(dataPoints);
      var window := WindowSize(|prices|, settings.windowPercentage);
      linearRegression := CalculateLinearRegression(prices, window);
      wma := CalculateWMA(prices, window);
      var emaResult := CalculateEMA(prices, window);
      if emaResult.Failure? {
        return Fail(emaResult.error);
      }
      ema := emaResult.value;
      var combined := CalculateCombinedIndicator(prices, settings);
      combinedIndicator := combined.value;
      return Pass;
    }
  }

  /** The time ranges offered, in order; the second is selected at start. */
  const DefaultTimeRanges: seq<TimeRange> := [
    TimeRange("1 Week", 7), TimeRange("1 Month", 30), TimeRange("3 Months", 90),
    TimeRange("6 Months", 180), TimeRange("1 Year", 365), TimeRange("2 Years", 730),
    TimeRange("5 Years", 1825)]

  /** No two stocks in the list track the same symbol. */
  ghost predicate DistinctSymbols(stocks: seq<StockViewModel>)
    reads stocks
  {
    forall i, j :: 0 <= i < j < |stocks| ==> stocks[i].Symbol() != stocks[j].Symbol()
  }

  /** The position of the first occurrence of x, or |s| when there is none. */
  function IndexOf<T(==)>(s: seq<T>, x: T): (i: nat)
    ensures i <= |s| && x !in s[..i]
    ensures i < |s| <==> x in s
    ensures i < |s| ==> s[i] == x
  {
    if |s| == 0 || s[0] == x then 0
    else
      var i := 1 + IndexOf(s[1..], x);
      assert s[..i] == [s[0]] + s[1..][..i - 1];
      i
  }

  /** ObservableCollection.Remove: the first occurrence of x is removed; the
      list is unchanged when x does not occur. */
  function RemoveFirst<T(==)>(s: seq<T>, x: T): (r: seq<T>)
    ensures x !in s ==> r == s
    ensures x in s ==> |r| == |s| - 1
  {
    var i := IndexOf(s, x);
    if i == |s| then s else s[..i] + s[i + 1..]
  }

  /** Removing takes away one x when there is one, and nothing else. */
  lemma RemoveFirstMultiset<T>(s: seq<T>, x: T)
    ensures multiset(RemoveFirst(s, x)) == multiset(s) - multiset{x}
  {
    var i := IndexOf(s, x);
    if i == |s| {
      assert multiset(s)[x] == 0;
    } else {
      assert s == s[..i] + [x] + s[i + 1..];
    }
  }

  /** Removing a stock keeps the symbols of the others apart. */
  lemma RemoveKeepsSymbolsDistinct(stocks: seq<StockViewModel>, x: StockViewModel)
    requires DistinctSymbols(stocks)
    ensures DistinctSymbols(RemoveFirst(stocks, x))
  {
    var i := IndexOf(stocks, x);
    if i < |stocks| {
      var r := RemoveFirst(stocks, x);
      forall a, b | 0 <= a < b < |r|
        ensures r[a].Symbol() != r[b].Symbol()
      {
        var a' := if a < i then a else a + 1;
        var b' := if b < i then b else b + 1;
        assert r[a] == stocks[a'] && r[b] == stocks[b'];
      }
    }
  }

  /** A view model for fetched data, with its indicators computed under the
      settings; computing them raises when the window exceeds the series. */
  method NewStock(data: StockData, settings: IndicatorSettings) returns (stock: StockViewModel, outcome: Outcome<Exception>)
    ensures fresh(stock)
    ensures stock.stockData == data && stock.dataPoints == data.dataPoints && stock.ShowsSummary()
    ensures outcome.Pass? <==> WindowSize(|data.dataPoints|, settings.windowPercentage) <= |data.dataPoints|
    ensures outcome.Pass? ==> stock.IndicatorsCurrent(settings)
    ensures outcome.Fail? ==> outcome == Fail(IndexOutOfRange)
  {
    stock := new StockViewModel(data);
    outcome := stock.UpdateIndicators(settings);
  }

  /** The stock data LoadStockDataAsync obtains: none without a selected
      time range (no fetch is made), otherwise what GetStockDataAsync makes
      of the quote service's answer. */
  function FetchedData(symbol: string, range: Option<TimeRange>, response: Option<ParsedChart>): (r: Option<StockData>)
    ensures range.None? || response.None? ==> r.None?
    ensures r.Some? ==> r.value.symbol == symbol && |r.value.dataPoints| > 0
  {
    if range.Some? && response.Some? then StockDataFrom(symbol, response.value) else None
  }

  /** A load finds data exactly when a time range is selected, the quote
      service answers, no row raises, some close is defined and the first
      defined close is not 0; the candles then carry exactly the defined
      closes of the answer, in order. */
  lemma FetchedCloses(symbol: string, range: Option<TimeRange>, response: Option<ParsedChart>)
    ensures FetchedData(symbol, range, response).Some?
        <==> range.Some? && response.Some?
             && (forall k :: 0 <= k < |response.value.timestamps| ==> !ReadRow(response.value, k).Raised?)
             && |response.value.timestamps| <= |response.value.closes|
             && |DefinedCloses(response.value.closes[..|response.value.timestamps|])| > 0
             && DefinedCloses(response.value.closes[..|response.value.timestamps|])[0] != 0.0
    ensures FetchedData(symbol, range, response).Some? ==>
      Closes(FetchedData(symbol, range, response).value.dataPoints)
        == DefinedCloses(response.value.closes[..|response.value.timestamps|])
  {
    if response.Some? {
      StockDataFromCloses(symbol, response.value);
    }
  }

  /** The indicator window for the percentage fits the candles of the data. */
  predicate WindowFits(data: StockData, percentage: int)
  {
    WindowSize(|data.dataPoints|, percentage) <= |data.dataPoints|
  }

  /** The list is the old list with one stock appended, which holds the data,
      shows its summary and has current indicators under the settings. */
  ghost predicate AppendedWith(before: seq<StockViewModel>, after: seq<StockViewModel>, data: StockData,
                               settings: IndicatorSettings)
    reads after
  {
    |after| == |before| + 1 && after[..|before|] == before
    && var added := after[|before|];
       added.stockData == data && added.dataPoints == data.dataPoints
       && added.ShowsSummary() && added.IndicatorsCurrent(settings)
  }

  /** Stocks.Any(s => s.Symbol == symbol) */
  predicate HasSymbol(stocks: seq<StockViewModel>, symbol: string)
    reads stocks
  {
    exists i :: 0 <= i < |stocks| && stocks[i].Symbol() == symbol
  }

  /** Appending a stock whose symbol no listed stock has keeps the symbols apart. */
  lemma AppendKeepsSymbolsDistinct(stocks: seq<StockViewModel>, stock: StockViewModel)
    requires DistinctSymbols(stocks) && !HasSymbol(stocks, stock.Symbol())
    ensures DistinctSymbols(stocks + [stock])
  {
    var r := stocks + [stock];
    forall a, b | 0 <= a < b < |r|
      ensures r[a].Symbol() != r[b].Symbol()
    {
      assert r[a] == stocks[a];
    }
  }

  /** Where the loop of ApplyChanges stands after the first i stocks, the
      stocks having held the series before: those i stocks have current
      indicators and windows that fit, and every later stock not met yet
      (the list may hold a view model twice) keeps its series. */
  ghost predicate UpdatedUpTo(stocks: seq<StockViewModel>, before: seq<IndicatorSeries>,
                              settings: IndicatorSettings, i: int)
    reads stocks
  {
    |before| == |stocks| && 0 <= i <= |stocks|
    && (forall k :: 0 <= k < i ==>
          stocks[k].IndicatorsCurrent(settings)
          && WindowSize(|stocks[k].dataPoints|, settings.windowPercentage) <= |stocks[k].dataPoints|)
    && forall k :: i <= k < |stocks| && stocks[k] !in stocks[..i] ==> stocks[k].Series() == before[k]
  }

  /** One turn of the loop of ApplyChanges: the stock at i recomputes its
      indicators. */
  method UpdateNext(stocks: seq<StockViewModel>, ghost before: seq<IndicatorSeries>, settings: IndicatorSettings,
                    i: int)
    returns (outcome: Outcome<Exception>)
    requires i < |stocks| && UpdatedUpTo(stocks, before, settings, i)
    modifies stocks[i]
    ensures stocks[i].dataPoints == old(stocks[i].dataPoints) && stocks[i].stockData == old(stocks[i].stockData)
    ensures stocks[i].SummaryKept()
    ensures outcome.Pass? <==>
      WindowSize(|stocks[i].dataPoints|, settings.windowPercentage) <= |stocks[i].dataPoints|
    ensures outcome.Pass? ==> UpdatedUpTo(stocks, before, settings, i + 1)
    ensures outcome.Fail? ==>
      outcome == Fail(IndexOutOfRange)
      && (forall k :: 0 <= k < i ==> stocks[k].IndicatorsCurrent(settings))
      && stocks[i].RaisedFrom(before[i], settings)
      && forall k :: i < k < |stocks| && stocks[k] !in stocks[..i + 1] ==> stocks[k].Series() == before[k]
  {
    outcome := stocks[i].UpdateIndicators(settings);
    if outcome.Fail? {
      assert forall j :: 0 <= j < i ==> stocks[j] != stocks[i];
    } else {
      assert forall k :: i < k < |stocks| && stocks[k] !in stocks[..i + 1] ==>
        stocks[k] !in stocks[..i] && stocks[k] != stocks[i];
    }
  }

  /** The loop of ApplyChanges: each stock in turn recomputes its
      indicators, and the first one that raises ends the loop. */
  method UpdateAllIndicators(stocks: seq<StockViewModel>, settings: IndicatorSettings)
    returns (outcome: Outcome<Exception>, ghost failedAt: int)
    modifies stocks
    ensures forall s :: s in stocks ==> s.dataPoints == old(s.dataPoints) && s.stockData == old(s.stockData)
    ensures forall s :: s in stocks ==> s.SummaryKept()
    ensures outcome.Pass? <==>
      forall s :: s in stocks ==> WindowSize(|s.dataPoints|, settings.windowPercentage) <= |s.dataPoints|
    ensures outcome.Pass? ==> forall s :: s in stocks ==> s.IndicatorsCurrent(settings)
    ensures outcome.Fail? ==> outcome == Fail(IndexOutOfRange) && 0 <= failedAt < |stocks|
    ensures outcome.Fail? ==> forall k :: 0 <= k < failedAt ==> stocks[k].IndicatorsCurrent(settings)
    ensures outcome.Fail? ==> stocks[failedAt].RaisedFrom(old(stocks[failedAt].Series()), settings)
    ensures outcome.Fail? ==>
      forall k :: failedAt < k < |stocks| && stocks[k] !in stocks[..failedAt + 1] ==>
        stocks[k].Series() == old(stocks[k].Series())
  {
    ghost var before := seq(|stocks|, k requires 0 <= k < |stocks| reads stocks => stocks[k].Series());
    for i := 0 to |stocks|
      invariant forall s :: s in stocks ==> s.dataPoints == old(s.dataPoints) && s.stockData == old(s.stockData)
      invariant forall s :: s in stocks ==> s.SummaryKept()
      invariant UpdatedUpTo(stocks, before, settings, i)
    {
      outcome := UpdateNext(stocks, before, settings, i);
      if outcome.Fail? {
        return outcome, i;
      }
    }
    return Pass, -1;
  }

  /** Symbols follow the stock data: when no stock's data has changed, the
      symbols are as distinct as they were. */
  twostate lemma SymbolsKept(stocks: seq<StockViewModel>)
    requires old(DistinctSymbols(stocks))
    requires forall s :: s in stocks ==> s.stockData == old(s.stockData)
    ensures DistinctSymbols(stocks)
  {
    forall i, j | 0 <= i < j < |stocks|
      ensures stocks[i].Symbol() != stocks[j].Symbol()
    {
      assert stocks[i] in stocks && stocks[j] in stocks;
    }
  }

  class MainViewModel {
    var stocks: seq<StockViewModel>
    var timeRanges: seq<TimeRange>
    var selectedStock: StockViewModel?
    var selectedTimeRange: Option<TimeRange>
    var newStockSymbol: string
    var windowPercentage: int
    var linearRegressionWeight: real
    var wmaWeight: real
    var emaWeight: real
    var weightSum: real
    var isLoading: bool
    var statusMessage: string

    /** WeightSum shows the sum of the three weights. */
    ghost predicate WeightSumCurrent()
      reads this
    {
      weightSum == linearRegressionWeight + wmaWeight + emaWeight
    }

    ghost predicate Valid()
      reads this, stocks
    {
      WeightSumCurrent() && DistinctSymbols(stocks)
    }

    /** The IndicatorSettings snapshot of the current settings. */
    function Settings(): (s: IndicatorSettings)
      reads this
      ensures WeightSumCurrent() ==> s.TotalWeight() == weightSum
    {
      IndicatorSettings(windowPercentage, linearRegressionWeight, wmaWeight, emaWeight)
    }

    /** Building the view model also selects the default time range, whose
        change handler refreshes the (still empty) list of stocks. Loading
        the saved symbols is not part of this model. */
    constructor ()
      ensures Valid()
      ensures stocks == [] && selectedStock == null && newStockSymbol == ""
      ensures timeRanges == DefaultTimeRanges && selectedTimeRange == Some(DefaultTimeRanges[1])
      ensures Settings() == DefaultSettings && weightSum == 1.0
      ensures !isLoading && statusMessage == "Data refreshed"
    {
      stocks := [];
      timeRanges := [];
      selectedStock := null;
      selectedTimeRange := None;
      newStockSymbol := "";
      windowPercentage := 40;
      linearRegressionWeight := 0.33;
      wmaWeight := 0.33;
      emaWeight := 0.34;
      weightSum := 1.0;
      isLoading := false;
      statusMessage := "";
      new;
      InitializeTimeRanges();
    }

    method InitializeTimeRanges()
      requires stocks == [] && timeRanges == []
      modifies this
      ensures timeRanges == DefaultTimeRanges && selectedTimeRange == Some(DefaultTimeRanges[1])
      ensures !isLoading && statusMessage == "Data refreshed"
      ensures stocks == old(stocks) && selectedStock == old(selectedStock) && newStockSymbol == old(newStockSymbol)
      ensures Settings() == old(Settings()) && weightSum == old(weightSum)
    {
      // The seven Add calls, in order, onto the empty collection.
      timeRanges := timeRanges + DefaultTimeRanges;
      selectedTimeRange := Some(timeRanges[1]);
      // The change handler starts RefreshData; with no stocks it runs to the end at once.
      isLoading := true;
      statusMessage := "Refreshing data...";
      statusMessage := "Data refreshed";
      isLoading := false;
    }

    method SetLinearRegressionWeight(value: real)
      requires WeightSumCurrent()
      modifies this
      ensures WeightSumCurrent() && linearRegressionWeight == value
      ensures wmaWeight == old(wmaWeight) && emaWeight == old(emaWeight)
      ensures weightSum == value + wmaWeight + emaWeight
      ensures stocks == old(stocks) && windowPercentage == old(windowPercentage)
      ensures selectedStock == old(selectedStock) && statusMessage == old(statusMessage)
      ensures newStockSymbol == old(newStockSymbol) && isLoading == old(isLoading)
      ensures timeRanges == old(timeRanges) && selectedTimeRange == old(selectedTimeRange)
    {
      if linearRegressionWeight != value {
        linearRegressionWeight := value;
        weightSum := linearRegressionWeight + wmaWeight + emaWeight;
      }
    }

    method SetWmaWeight(value: real)
      requires WeightSumCurrent()
      modifies this
      ensures WeightSumCurrent() && wmaWeight == value
      ensures linearRegressionWeight == old(linearRegressionWeight) && emaWeight == old(emaWeight)
      ensures weightSum == linearRegressionWeight + value + emaWeight
      ensures stocks == old(stocks) && windowPercentage == old(windowPercentage)
      ensures selectedStock == old(selectedStock) && statusMessage == old(statusMessage)
      ensures newStockSymbol == old(newStockSymbol) && isLoading == old(isLoading)
      ensures timeRanges == old(timeRanges) && selectedTimeRange == old(selectedTimeRange)
    {
      if wmaWeight != value {
        wmaWeight := value;
        weightSum := linearRegressionWeight + wmaWeight + emaWeight;
      }
    }

    method SetEmaWeight(value: real)
      requires WeightSumCurrent()
      modifies this
      ensures WeightSumCurrent() && emaWeight == value
      ensures linearRegressionWeight == old(linearRegressionWeight) && wmaWeight == old(wmaWeight)
      ensures weightSum == linearRegressionWeight + wmaWeight + value
      ensures stocks == old(stocks) && windowPercentage == old(windowPercentage)
      ensures selectedStock == old(selectedStock) && statusMessage == old(statusMessage)
      ensures newStockSymbol == old(newStockSymbol) && isLoading == old(isLoading)
      ensures timeRanges == old(timeRanges) && selectedTimeRange == old(selectedTimeRange)
    {
      if emaWeight != value {
        emaWeight := value;
        weightSum := linearRegressionWeight + wmaWeight + emaWeight;
      }
    }

    /** ValidateStockSymbolAsync: a five-day fetch that returns candles. */
    static function IsValidSymbol(symbol: string, validation: Option<ParsedChart>): (v: bool)
      ensures validation.None? ==> !v
      ensures validation.Some? ==> (v <==> StockDataFrom(symbol, validation.value).Some?)
    {
      match validation
      case None => false
      case Some(chart) =>
        var data := StockDataFrom(symbol, chart);
        data.Some? && |data.value.dataPoints| > 0
    }

    /** LoadStockDataAsync: when a time range is selected and the fetch
        returns data, a view model is built for it, its indicators are
        computed with the current settings and it is appended to the list.
        Computing the indicators raises for a series shorter than the window,
        and then nothing is appended. */
    method LoadStockData(symbol: string, response: Option<ParsedChart>) returns (outcome: Outcome<Exception>)
      requires Valid() && !HasSymbol(stocks, symbol)
      modifies this
      ensures Valid()
      ensures Settings() == old(Settings()) && weightSum == old(weightSum)
      ensures selectedStock == old(selectedStock) && newStockSymbol == old(newStockSymbol)
      ensures statusMessage == old(statusMessage) && isLoading == old(isLoading)
      ensures timeRanges == old(timeRanges) && selectedTimeRange == old(selectedTimeRange)
      ensures var data := FetchedData(symbol, selectedTimeRange, response);
        (outcome.Fail? <==> data.Some? && !WindowFits(data.value, windowPercentage))
        && (outcome.Fail? ==> outcome == Fail(IndexOutOfRange))
        && if data.Some? && outcome.Pass? then
             AppendedWith(old(stocks), stocks, data.value, Settings()) && fresh(stocks[|stocks| - 1])
             && stocks[|stocks| - 1].Symbol() == symbol
           else stocks == old(stocks)
    {
      if selectedTimeRange.None? {
        return Pass;
      }
      var data := None;
      if response.Some? {
        data := GetStockData(symbol, response.value);
      }
      if data.Some? {
        var stock;
        stock, outcome := NewStock(data.value, Settings());
        if outcome.Fail? {
          return outcome;
        }
        Append(stock);
      }
      return Pass;
    }

    /** Stocks.Add for a stock whose symbol is not tracked yet. */
    method Append(stock: StockViewModel)
      requires Valid() && !HasSymbol(stocks, stock.Symbol())
      modifies this
      ensures Valid()
      ensures stocks == old(stocks) + [stock]
      ensures selectedStock == old(selectedStock) && newStockSymbol == old(newStockSymbol)
      ensures statusMessage == old(statusMessage) && isLoading == old(isLoading)
      ensures Settings() == old(Settings()) && weightSum == old(weightSum)
      ensures timeRanges == old(timeRanges) && selectedTimeRange == old(selectedTimeRange)
    {
      AppendKeepsSymbolsDistinct(stocks, stock);
      stocks := stocks + [stock];
    }

    /** The AddStock command. A blank entry and an already tracked symbol are
        turned away before any fetch; otherwise the symbol is validated with
        one fetch and loaded with another. */
    method AddStock(validation: Option<ParsedChart>, response: Option<ParsedChart>) returns (outcome: Outcome<Exception>)
      requires Valid()
      modifies this
      ensures Valid()
      ensures Settings() == old(Settings()) && weightSum == old(weightSum) && selectedStock == old(selectedStock)
      ensures timeRanges == old(timeRanges) && selectedTimeRange == old(selectedTimeRange)
      ensures IsBlank(old(newStockSymbol)) ==>
        outcome == Pass && stocks == old(stocks) && statusMessage == "Please enter a stock symbol"
        && newStockSymbol == old(newStockSymbol) && isLoading == old(isLoading)
      ensures !IsBlank(old(newStockSymbol)) ==>
        var symbol := NormaliseSymbol(old(newStockSymbol));
        if old(HasSymbol(stocks, symbol)) then
          outcome == Pass && stocks == old(stocks) && statusMessage == symbol + " is already being tracked"
          && newStockSymbol == old(newStockSymbol) && isLoading == old(isLoading)
        else if !IsValidSymbol(symbol, validation) then
          outcome == Pass && stocks == old(stocks) && statusMessage == "Invalid symbol: " + symbol && !isLoading
          && newStockSymbol == old(newStockSymbol)
        else
          var data := FetchedData(symbol, selectedTimeRange, response);
          (outcome.Fail? <==> data.Some? && !WindowFits(data.value, windowPercentage))
          && if outcome.Fail? then
               stocks == old(stocks) && statusMessage == "Adding " + symbol + "..." && isLoading
               && newStockSymbol == old(newStockSymbol)
             else
               newStockSymbol == "" && statusMessage == symbol + " added successfully" && !isLoading
               && if data.Some? then AppendedWith(old(stocks), stocks, data.value, Settings())
                                     && stocks[|stocks| - 1].Symbol() == symbol && fresh(stocks[|stocks| - 1])
                  else stocks == old(stocks)
    {
      if IsBlank(newStockSymbol) {
        statusMessage := "Please enter a stock symbol";
        return Pass;
      }
      var symbol := NormaliseSymbol(newStockSymbol);
      if HasSymbol(stocks, symbol) {
        statusMessage := symbol + " is already being tracked";
        return Pass;
      }
      outcome := ValidateAndLoad(symbol, IsValidSymbol(symbol, validation), response);
    }

    /** The rest of the AddStock command, for a symbol not yet tracked: the
        verdict of the validation fetch, then the load, then the success
        status. The verdict is a pure function of the fetched chart, so it is
        passed in already evaluated. */
    method ValidateAndLoad(symbol: string, isValid: bool, response: Option<ParsedChart>)
      returns (outcome: Outcome<Exception>)
      requires Valid() && !HasSymbol(stocks, symbol)
      modifies this
      ensures Valid()
      ensures Settings() == old(Settings()) && weightSum == old(weightSum) && selectedStock == old(selectedStock)
      ensures timeRanges == old(timeRanges) && selectedTimeRange == old(selectedTimeRange)
      ensures if !isValid then
          outcome == Pass && stocks == old(stocks) && statusMessage == "Invalid symbol: " + symbol && !isLoading
          && newStockSymbol == old(newStockSymbol)
        else
          var data := FetchedData(symbol, selectedTimeRange, response);
          (outcome.Fail? <==> data.Some? && !WindowFits(data.value, windowPercentage))
          && if outcome.Fail? then
               stocks == old(stocks) && statusMessage == "Adding " + symbol + "..." && isLoading
               && newStockSymbol == old(newStockSymbol)
             else
               newStockSymbol == "" && statusMessage == symbol + " added successfully" && !isLoading
               && if data.Some? then AppendedWith(old(stocks), stocks, data.value, Settings())
                                     && stocks[|stocks| - 1].Symbol() == symbol && fresh(stocks[|stocks| - 1])
                  else stocks == old(stocks)
    {
      ShowStatus("Adding " + symbol + "...", true);
      if !isValid {
        ShowStatus("Invalid symbol: " + symbol, false);
        return Pass;
      }
      outcome := LoadAndReport(symbol, response);
    }

    /** The end of the AddStock command: the load, then, unless it raised,
        the entry is cleared and success is reported. */
    method LoadAndReport(symbol: string, response: Option<ParsedChart>) returns (outcome: Outcome<Exception>)
      requires Valid() && !HasSymbol(stocks, symbol)
      modifies this
      ensures Valid()
      ensures Settings() == old(Settings()) && weightSum == old(weightSum) && selectedStock == old(selectedStock)
      ensures timeRanges == old(timeRanges) && selectedTimeRange == old(selectedTimeRange)
      ensures var data := FetchedData(symbol, selectedTimeRange, response);
        (outcome.Fail? <==> data.Some? && !WindowFits(data.value, windowPercentage))
        && if outcome.Fail? then
             stocks == old(stocks) && statusMessage == old(statusMessage) && isLoading == old(isLoading)
             && newStockSymbol == old(newStockSymbol)
           else
             newStockSymbol == "" && statusMessage == symbol + " added successfully" && !isLoading
             && if data.Some? then AppendedWith(old(stocks), stocks, data.value, Settings())
                                   && stocks[|stocks| - 1].Symbol() == symbol && fresh(stocks[|stocks| - 1])
                else stocks == old(stocks)
    {
      outcome := LoadStockData(symbol, response);
      if outcome.Fail? {
        return outcome;
      }
      ReportAdded(symbol);
    }

    /** Clears the entry and reports success, nothing else. */
    method ReportAdded(symbol: string)
      requires Valid()
      modifies this
      ensures Valid()
      ensures newStockSymbol == "" && statusMessage == symbol + " added successfully" && !isLoading
      ensures stocks == old(stocks) && selectedStock == old(selectedStock)
      ensures Settings() == old(Settings()) && weightSum == old(weightSum)
      ensures timeRanges == old(timeRanges) && selectedTimeRange == old(selectedTimeRange)
    {
      newStockSymbol := "";
      statusMessage := symbol + " added successfully";
      isLoading := false;
    }

    /** Sets the status line and the loading flag and nothing else. */
    method ShowStatus(message: string, loading: bool)
      requires Valid()
      modifies this
      ensures Valid()
      ensures statusMessage == message && isLoading == loading
      ensures stocks == old(stocks) && selectedStock == old(selectedStock) && newStockSymbol == old(newStockSymbol)
      ensures Settings() == old(Settings()) && weightSum == old(weightSum)
      ensures timeRanges == old(timeRanges) && selectedTimeRange == old(selectedTimeRange)
    {
      statusMessage := message;
      isLoading := loading;
    }

    /** The RemoveSelectedStock command: nothing happens without a selection;
        otherwise the selected stock leaves the list and the selection is
        cleared. */
    method RemoveSelectedStock()
      requires Valid()
      modifies this
      ensures Valid()
      ensures old(selectedStock) == null ==>
        stocks == old(stocks) && selectedStock == null && statusMessage == old(statusMessage)
      ensures old(selectedStock) != null ==>
        stocks == RemoveFirst(old(stocks), old(selectedStock))
        && selectedStock == null
        && statusMessage == old(selectedStock).Symbol() + " removed"
      ensures Settings() == old(Settings()) && weightSum == old(weightSum) && newStockSymbol == old(newStockSymbol)
      ensures isLoading == old(isLoading) && timeRanges == old(timeRanges) && selectedTimeRange == old(selectedTimeRange)
    {
      if selectedStock == null {
        return;
      }
      var symbol := selectedStock.Symbol();
      RemoveKeepsSymbolsDistinct(stocks, selectedStock);
      stocks := RemoveFirst(stocks, selectedStock);
      selectedStock := null;
      statusMessage := symbol + " removed";
    }

    /** The ApplyChanges command: WeightSum is brought up to date and every
        stock's indicators are recomputed with the current settings. A stock
        whose series is shorter than the window raises, which stops the
        command there. */
    method ApplyChanges() returns (outcome: Outcome<Exception>, ghost failedAt: int)
      requires Valid()
      modifies this, stocks
      ensures Valid()
      ensures stocks == old(stocks) && Settings() == old(Settings())
      ensures forall s :: s in stocks ==> s.dataPoints == old(s.dataPoints) && s.stockData == old(s.stockData)
      ensures forall s :: s in stocks ==> s.SummaryKept()
      ensures selectedStock == old(selectedStock) && newStockSymbol == old(newStockSymbol) && isLoading == old(isLoading)
      ensures timeRanges == old(timeRanges) && selectedTimeRange == old(selectedTimeRange)
      ensures outcome.Pass? <==>
        forall s :: s in stocks ==> WindowSize(|s.dataPoints|, windowPercentage) <= |s.dataPoints|
      ensures outcome.Pass? ==>
        statusMessage == "Changes applied" && forall s :: s in stocks ==> s.IndicatorsCurrent(Settings())
      ensures outcome.Fail? ==>
        statusMessage == old(statusMessage) && outcome == Fail(IndexOutOfRange) && 0 <= failedAt < |stocks|
      ensures outcome.Fail? ==> forall k :: 0 <= k < failedAt ==> stocks[k].IndicatorsCurrent(Settings())
      ensures outcome.Fail? ==> stocks[failedAt].RaisedFrom(old(stocks[failedAt].Series()), Settings())
      ensures outcome.Fail? ==>
        forall k :: failedAt < k < |stocks| && stocks[k] !in stocks[..failedAt + 1] ==>
          stocks[k].Series() == old(stocks[k].Series())
    {
      weightSum := linearRegressionWeight + wmaWeight + emaWeight;
      outcome, failedAt := UpdateAllIndicators(stocks, Settings());
      SymbolsKept(stocks);
      if outcome.Fail? {
        return;
      }
      statusMessage := "Changes applied";
    }
  }
}
