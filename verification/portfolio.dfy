/**
 * `usePortfolioDerivedData`: from the assets, their metadata, current prices
 * and price charts to one derived record per asset and the portfolio totals.
 * It calls no framework code; each result is a pure function of the inputs.
 * A `NaN` or infinite number of the source is `None` here.
 */
module Portfolio {
  import opened Wrappers
  import opened Events
  import opened Sums
  import opened Sorting
  import opened CostBasis
  import opened Assets

  /** `getPercentageChange`: the change from `oldNumber` to `newNumber` in percent; not a finite number when `oldNumber` is 0. */
  function GetPercentageChange(oldNumber: real, newNumber: real): (p: Option<real>)
    ensures p.None? <==> oldNumber == 0.0
    ensures p.Some? ==> oldNumber + oldNumber * p.value / 100.0 == newNumber
  {
    if oldNumber == 0.0 then None else Some((newNumber - oldNumber) / oldNumber * 100.0)
  }

  /** The same with a base that may itself be undefined; `undefined` in arithmetic gives `NaN`. */
  function PercentageChangeFrom(oldNumber: Option<real>, newNumber: real): (p: Option<real>)
    ensures p.Some? <==> oldNumber.Some? && oldNumber.value != 0.0
    ensures p.Some? ==> p == GetPercentageChange(oldNumber.value, newNumber)
  {
    match oldNumber
    case None => None
    case Some(o) => GetPercentageChange(o, newNumber)
  }

  /** lodash `last`: the final element, `undefined` for an empty array. */
  function Last(s: seq<real>): (r: Option<real>)
    ensures r.None? <==> |s| == 0
    ensures r.Some? ==> r.value == s[|s| - 1]
  {
    if |s| == 0 then None else Some(s[|s| - 1])
  }

  /** What the source reads from a supported-asset entry. */
  datatype AssetMetadata = AssetMetadata(name: string, symbol: string, address: string, logoUri: string)

  /** The close prices (`c`) and their unix timestamps (`t`) of an asset's price chart; the other series are not read. */
  datatype PriceChart = PriceChart(closes: seq<real>, timestamps: seq<real>)

  /** `Array.prototype.find` by symbol: the first entry with that symbol. */
  function FindMetadata(metadata: seq<AssetMetadata>, symbol: string): (r: Option<AssetMetadata>)
    ensures r.None? <==> forall k :: 0 <= k < |metadata| ==> metadata[k].symbol != symbol
    ensures r.Some? ==> exists k :: 0 <= k < |metadata| && metadata[k] == r.value && r.value.symbol == symbol
                                    && forall j :: 0 <= j < k ==> metadata[j].symbol != symbol
    decreases |metadata|
  {
    if |metadata| == 0 then None
    else if metadata[0].symbol == symbol then Some(metadata[0])
    else
      var r := FindMetadata(metadata[1..], symbol);
      assert forall k :: 1 <= k < |metadata| ==> metadata[k] == metadata[1..][k - 1];
      if r.Some? then
        ghost var k :| 0 <= k < |metadata[1..]| && metadata[1..][k] == r.value && r.value.symbol == symbol
                       && forall j :: 0 <= j < k ==> metadata[1..][j].symbol != symbol;
        assert metadata[k + 1] == r.value;
        r
      else r
  }

  /**
   * The average entry price of the remaining lots: their total cost over
   * their total units; `0/0` or `x/0` when no units remain.
   */
  function AverageEntryPrice(remainingBuys: seq<BuyEvent>): (r: Option<real>)
    ensures r.None? <==> Sum(remainingBuys, UnitsBought) == 0.0
    ensures r.Some? ==> r.value * Sum(remainingBuys, UnitsBought) == Sum(remainingBuys, BuyAmount)
  {
    var units := Sum(remainingBuys, UnitsBought);
    if units == 0.0 then None else Some(Sum(remainingBuys, BuyAmount) / units)
  }

  /** Lots all valued at one unit price `p` average to `p`. */
  lemma AverageOfOnePrice(remainingBuys: seq<BuyEvent>, p: real)
    requires forall k :: 0 <= k < |remainingBuys| ==> remainingBuys[k].amount == remainingBuys[k].unitsBought * p
    requires Sum(remainingBuys, UnitsBought) != 0.0
    ensures AverageEntryPrice(remainingBuys) == Some(p)
  {
    AmountsAtOnePrice(remainingBuys, p);
    var units := Sum(remainingBuys, UnitsBought);
    var amount := Sum(remainingBuys, BuyAmount);
    assert AverageEntryPrice(remainingBuys) == Some(amount / units);
    DivideOut(amount, p, units);
  }

  /** Dividing `u * p` by a non-zero `u` gives back `p`. */
  lemma DivideOut(amount: real, p: real, u: real)
    requires u != 0.0 && amount == u * p
    ensures amount / u == p
  {
    assert u / u == 1.0;
  }

  lemma {:induction false} AmountsAtOnePrice(bs: seq<BuyEvent>, p: real)
    requires forall k :: 0 <= k < |bs| ==> bs[k].amount == bs[k].unitsBought * p
    ensures Sum(bs, BuyAmount) == Sum(bs, UnitsBought) * p
    decreases |bs|
  {
    if |bs| > 0 {
      AmountsAtOnePrice(bs[1..], p);
    }
  }

  /** The derived record of one asset: its metadata, position, PnL, daily move, entry price and lifetime cost. */
  datatype AssetData = AssetData(
    name: string,
    symbol: string,
    address: string,
    logoUri: string,
    closeValues: seq<real>,        // the position valued at each close of the chart
    timestamps: seq<real>,         // the chart's timestamps, unchanged
    price: real,
    usdValue: real,
    realizedPnL: real,
    unrealizedPnL: real,
    dailyReturnUsd: Option<real>,
    dailyReturnPercent: Option<real>,
    availableBalance: real,
    averageEntryPrice: Option<real>,
    totalCost: real)

  /** The `TypeError`s the roll-up can throw: a symbol with no metadata, an address with no price or no chart, no assets at all. */
  datatype PortfolioError = MissingMetadata(symbol: string) | MissingPrice(address: string) | MissingPriceChart(address: string) | NoAssets

  /** Each close price times the units held. */
  function ValueSeries(closes: seq<real>, units: real): (v: seq<real>)
    ensures |v| == |closes| && forall i :: 0 <= i < |closes| ==> v[i] == closes[i] * units
  {
    seq(|closes|, i requires 0 <= i < |closes| => closes[i] * units)
  }

  /** The position's value now minus its value at the last close; `NaN` without a close. */
  function DailyReturnUsd(units: real, price: real, lastClose: Option<real>): (r: Option<real>)
    ensures r.Some? <==> lastClose.Some?
    ensures r.Some? ==> r.value == units * (price - lastClose.value)
  {
    match lastClose
    case None => None
    case Some(c) => Some(units * price - c * units)
  }

  /**
   * What the record of `symbol` says when `units` are held at `price`, the
   * chart closes at `closes` and the buys cost `totalCost` in all.
   */
  ghost predicate Describes(symbol: string, price: real, closes: seq<real>, units: real, totalCost: real, d: AssetData) {
    && d.symbol == symbol
    && d.price == price
    && d.availableBalance == units
    && d.usdValue == units * price
    && |d.closeValues| == |closes|
    && (forall i :: 0 <= i < |closes| ==> d.closeValues[i] == closes[i] * units)
    && (|closes| == 0 ==> d.dailyReturnUsd.None? && d.dailyReturnPercent.None?)
    && (|closes| > 0 ==> d.dailyReturnUsd.Some? && d.dailyReturnUsd.value == units * (price - closes[|closes| - 1]))
    && (d.dailyReturnPercent.Some? <==> |closes| > 0 && closes[|closes| - 1] != 0.0)
    && (d.dailyReturnPercent.Some? ==> closes[|closes| - 1] + closes[|closes| - 1] * d.dailyReturnPercent.value / 100.0 == price)
    && d.totalCost == totalCost
  }

  /** The record once the position, the cost-basis data and the lifetime cost are known. */
  function RecordOf(symbol: string, m: AssetMetadata, price: real, chart: PriceChart, units: real, data: CostBasisData, totalCost: real)
    : (d: AssetData)
    ensures d.address == m.address && d.name == m.name && d.logoUri == m.logoUri && d.timestamps == chart.timestamps
    ensures Describes(symbol, price, chart.closes, units, totalCost, d)
  {
    var lastClose := Last(chart.closes);
    var daily := DailyReturnUsd(units, price, lastClose);
    AssetData(
      m.name, symbol, m.address, m.logoUri,
      ValueSeries(chart.closes, units), chart.timestamps,
      price, units * price,
      DeriveRealizedPnL(data.gainLossEvents),
      DeriveUnrealizedPnL(data.remainingBuys, price),
      daily,
      PercentageChangeFrom(lastClose, price),
      units,
      AverageEntryPrice(data.remainingBuys),
      totalCost)
  }

  /** The record of one asset once its metadata, price and chart are found. */
  function BuildRecord(asset: Asset, m: AssetMetadata, price: real, chart: PriceChart): (d: AssetData)
    ensures d.address == m.address && d.name == m.name && d.logoUri == m.logoUri && d.timestamps == chart.timestamps
    ensures Describes(asset.assetId, price, chart.closes, DeriveRemainingUnits(asset.buys, asset.sells), Sum(asset.buys, BuyAmount), d)
  {
    var data := DeriveCostBasisData(asset.buys, asset.sells);
    RecordOf(asset.assetId, m, price, chart, DeriveRemainingUnits(asset.buys, asset.sells), data, Sum(asset.buys, BuyAmount))
  }

  /**
   * The PnL columns of a record: realized PnL is the sum of the cost-basis
   * records' amounts, unrealized PnL marks the unconsumed lots to the current
   * price, and the average entry price spreads their cost over their units.
   */
  lemma RecordPnL(symbol: string, m: AssetMetadata, price: real, chart: PriceChart, units: real, data: CostBasisData, totalCost: real)
    ensures var d := RecordOf(symbol, m, price, chart, units, data, totalCost);
            && d.realizedPnL == Sum(data.gainLossEvents, GainLossAmount)
            && d.unrealizedPnL == price * Sum(data.remainingBuys, UnitsBought) - Sum(data.remainingBuys, BuyAmount)
            && (d.averageEntryPrice.None? <==> Sum(data.remainingBuys, UnitsBought) == 0.0)
            && (d.averageEntryPrice.Some? ==> d.averageEntryPrice.value * Sum(data.remainingBuys, UnitsBought) == Sum(data.remainingBuys, BuyAmount))
  {
    UnrealizedPnLIsMarkToMarket(data.remainingBuys, price);
  }

  /** The per-asset step of `assets.map`: look up the metadata by symbol, then the price and the chart by address. */
  function AssetRecord(asset: Asset, metadata: seq<AssetMetadata>, prices: map<string, real>, charts: map<string, PriceChart>)
    : (r: Result<AssetData, PortfolioError>)
    ensures FindMetadata(metadata, asset.assetId).None? ==> r == Failure(MissingMetadata(asset.assetId))
    ensures FindMetadata(metadata, asset.assetId).Some? ==>
              var address := FindMetadata(metadata, asset.assetId).value.address;
              && (address !in prices ==> r == Failure(MissingPrice(address)))
              && (address in prices && address !in charts ==> r == Failure(MissingPriceChart(address)))
              && (address in prices && address in charts ==>
                    && r.Success? && r.value.address == address
                    && Describes(asset.assetId, prices[address], charts[address].closes,
                                 DeriveRemainingUnits(asset.buys, asset.sells), Sum(asset.buys, BuyAmount), r.value))
  {
    match FindMetadata(metadata, asset.assetId)
    case None => Failure(MissingMetadata(asset.assetId))
    case Some(m) =>
      if m.address !in prices then Failure(MissingPrice(m.address))
      else if m.address !in charts then Failure(MissingPriceChart(m.address))
      else Success(BuildRecord(asset, m, prices[m.address], charts[m.address]))
  }


  function UsdValue(d: AssetData): real { d.usdValue }
  function NegUsdValue(d: AssetData): real { -d.usdValue }
  function RealizedPnL(d: AssetData): real { d.realizedPnL }
  function UnrealizedPnL(d: AssetData): real { d.unrealizedPnL }
  function TotalCost(d: AssetData): real { d.totalCost }

  /** A record's daily move in USD, counting an undefined one as 0. */
  function DailyUsd(d: AssetData): real { if d.dailyReturnUsd.Some? then d.dailyReturnUsd.value else 0.0 }

  /** The portfolio's value at the last close: each value minus its daily move; `NaN` as soon as one move is. */
  function ValueAtLastClose(ds: seq<AssetData>): (r: Option<real>)
    ensures r.Some? <==> forall k :: 0 <= k < |ds| ==> ds[k].dailyReturnUsd.Some?
    ensures r.Some? ==> r.value == Sum(ds, UsdValue) - Sum(ds, DailyUsd)
    decreases |ds|
  {
    if |ds| == 0 then Some(0.0)
    else
      assert forall k :: 1 <= k < |ds| ==> ds[k] == ds[1..][k - 1];
      match ds[0].dailyReturnUsd
      case None => None
      case Some(x) =>
        match ValueAtLastClose(ds[1..])
        case None => None
        case Some(v) => Some((ds[0].usdValue - x) + v)
  }

  /** The position's value at day `i` of a record's chart, 0 past its end. */
  function ColumnAt(d: AssetData, i: nat): real {
    if i < |d.closeValues| then d.closeValues[i] else 0.0
  }

  /** The portfolio's value at day `i`: the sum over the records whose chart reaches day `i`. */
  function ColumnSum(ds: seq<AssetData>, i: nat): real {
    Sum(ds, (d: AssetData) => ColumnAt(d, i))
  }

  /** The length of the longest chart. */
  function LongestSeries(ds: seq<AssetData>): nat
    decreases |ds|
  {
    if |ds| == 0 then 0
    else if |ds[0].closeValues| > LongestSeries(ds[1..]) then |ds[0].closeValues|
    else LongestSeries(ds[1..])
  }

  /** One pass of the inner `forEach`: `acc[idx] = (acc[idx] ?? 0) + val` for each value of `series`, growing `acc` as needed. */
  function AddSeries(acc: seq<real>, series: seq<real>): (r: seq<real>)
    ensures |r| == if |acc| < |series| then |series| else |acc|
    ensures forall i :: 0 <= i < |r| ==>
              r[i] == (if i < |acc| then acc[i] else 0.0) + (if i < |series| then series[i] else 0.0)
  {
    var n := if |acc| < |series| then |series| else |acc|;
    seq(n, i requires 0 <= i < n =>
      if i < |series| then (if i < |acc| then acc[i] else 0.0) + series[i] else acc[i])
  }

  /** `portfolioChartValueData`: every record's chart added in, in order. */
  function PortfolioChart(ds: seq<AssetData>): seq<real>
    decreases |ds|
  {
    if |ds| == 0 then [] else AddSeries(PortfolioChart(ds[..|ds| - 1]), ds[|ds| - 1].closeValues)
  }

  lemma {:induction false} LongestSeriesLast(ds: seq<AssetData>)
    requires |ds| > 0
    ensures var init := LongestSeries(ds[..|ds| - 1]);
            LongestSeries(ds) == if init < |ds[|ds| - 1].closeValues| then |ds[|ds| - 1].closeValues| else init
    decreases |ds|
  {
    if |ds| > 1 {
      assert ds[1..][..|ds[1..]| - 1] == ds[..|ds| - 1][1..];
      LongestSeriesLast(ds[1..]);
    }
  }

  /** The chart is as long as the longest record chart, and day `i` holds the sum of the values of day `i`. */
  ghost predicate ChartOf(ds: seq<AssetData>, chart: seq<real>) {
    |chart| == LongestSeries(ds) && forall i :: 0 <= i < |chart| ==> chart[i] == ColumnSum(ds, i)
  }

  lemma ColumnSumPastEnd(ds: seq<AssetData>, i: nat)
    requires i >= LongestSeries(ds)
    ensures ColumnSum(ds, i) == 0.0
    decreases |ds|
  {
    if |ds| > 0 {
      ColumnSumPastEnd(ds[1..], i);
    }
  }

  lemma {:induction false} PortfolioChartColumns(ds: seq<AssetData>)
    ensures ChartOf(ds, PortfolioChart(ds))
    decreases |ds|
  {
    if |ds| > 0 {
      var init, d := ds[..|ds| - 1], ds[|ds| - 1];
      PortfolioChartColumns(init);
      LongestSeriesLast(ds);
      var acc := PortfolioChart(init);
      var chart := AddSeries(acc, d.closeValues);
      forall i | 0 <= i < |chart|
        ensures chart[i] == ColumnSum(ds, i)
      {
        SumLast(ds, (e: AssetData) => ColumnAt(e, i));
        if i >= |acc| {
          ColumnSumPastEnd(init, i);
        }
      }
    }
  }

  /** The order of the records does not matter to a chart day: sorting them leaves every column sum unchanged. */
  lemma ColumnSumSorted(ds: seq<AssetData>, i: nat)
    ensures ColumnSum(SortBy(ds, NegUsdValue), i) == ColumnSum(ds, i)
  {
    SortBySum(ds, NegUsdValue, (d: AssetData) => ColumnAt(d, i));
  }

  /** A point of the portfolio area chart; `date` is `undefined` past the end of the timestamps. */
  datatype ChartDatum = ChartDatum(value: real, date: Option<real>)

  /** `mapChartDataArraysToObjects`: pairs each value with the timestamp at the same index. */
  function MapChartDataArraysToObjects(values: seq<real>, unixTimestamps: seq<real>): (r: seq<ChartDatum>)
    ensures |r| == |values|
  {
    seq(|values|, i requires 0 <= i < |values| =>
      ChartDatum(values[i], if i < |unixTimestamps| then Some(unixTimestamps[i]) else None))
  }

  function ChartValues(chart: seq<ChartDatum>): (v: seq<real>)
    ensures |v| == |chart|
  {
    seq(|chart|, i requires 0 <= i < |chart| => chart[i].value)
  }

  /** The values come back out unchanged, and every point has a date exactly when a timestamp exists at its index. */
  lemma ChartRoundTrip(values: seq<real>, unixTimestamps: seq<real>)
    ensures ChartValues(MapChartDataArraysToObjects(values, unixTimestamps)) == values
    ensures var r := MapChartDataArraysToObjects(values, unixTimestamps);
            forall i :: 0 <= i < |r| ==> (r[i].date.Some? <==> i < |unixTimestamps|) && (r[i].date.Some? ==> r[i].date.value == unixTimestamps[i])
  {
  }

  /** A slice of the composition pie chart. */
  datatype PieDatum = PieDatum(key: string, value: real)

  function PieValue(p: PieDatum): real { p.value }

  /** One slice per record, keyed by symbol and sized by position value, in the records' order. */
  function PieData(ds: seq<AssetData>): (p: seq<PieDatum>)
    ensures |p| == |ds|
  {
    seq(|ds|, k requires 0 <= k < |ds| => PieDatum(ds[k].symbol, ds[k].usdValue))
  }

  /** The slices add up to the portfolio's value. */
  lemma {:induction false} PieTotalsValue(ds: seq<AssetData>)
    ensures Sum(PieData(ds), PieValue) == Sum(ds, UsdValue)
    decreases |ds|
  {
    if |ds| > 0 {
      PieTotalsValue(ds[1..]);
      assert PieData(ds)[1..] == PieData(ds[1..]);
    }
  }

  /**
   * The lifetime return in percent as written: the change from the total
   * cost to the total return, i.e. `(return - cost) / cost * 100`.
   */
  function LifetimeReturnPercentAsWritten(totalCost: real, totalReturn: real): Option<real> {
    GetPercentageChange(totalCost, totalReturn)
  }

  /** The lifetime return in percent of the total cost: the change from the cost to the cost plus the return. */
  function LifetimeReturnPercent(totalCost: real, totalReturn: real): (p: Option<real>)
    ensures p.None? <==> totalCost == 0.0
    ensures p.Some? ==> totalCost * p.value / 100.0 == totalReturn
  {
    GetPercentageChange(totalCost, totalCost + totalReturn)
  }

  /**
   * As written, the figure is always 100 points below the return in percent:
   * a 10 USD return on 100 USD of cost shows as -90% instead of 10%.
   */
  lemma LifetimeReturnPercentOffByHundred(totalCost: real, totalReturn: real)
    requires totalCost != 0.0
    ensures LifetimeReturnPercentAsWritten(totalCost, totalReturn).value
            == LifetimeReturnPercent(totalCost, totalReturn).value - 100.0
    ensures LifetimeReturnPercentAsWritten(100.0, 10.0) == Some(-90.0)
    ensures LifetimeReturnPercent(100.0, 10.0) == Some(10.0)
  {
    var c, r := totalCost, totalReturn;
    assert (r - c) / c * 100.0 == (c + r - c) / c * 100.0 - 100.0 by {
      assert c / c == 1.0;
      assert (r - c) / c == r / c - c / c;
      assert (c + r - c) / c == r / c;
    }
  }

  /** Everything the roll-up returns. */
  datatype PortfolioData = PortfolioData(
    assetDatas: seq<AssetData>,
    realizedPnL: real,
    unrealizedPnL: real,
    usdValue: real,
    dailyAreaChart: seq<ChartDatum>,
    compositionPie: seq<PieDatum>,
    dailyReturnPercent: Option<real>,
    dailyReturnUsd: Option<real>,
    totalCost: real,
    totalReturnUsd: real,
    totalReturnPercent: Option<real>)

  /**
   * The portfolio-level part: order the records by position value, largest
   * first (stable), and fold them into the totals, the chart and the pie;
   * the chart's timestamps are those of the largest position, and reading
   * them throws when there are no records.
   */
  function Rollup(ds: seq<AssetData>): (r: Result<PortfolioData, PortfolioError>)
    ensures r.Failure? <==> |ds| == 0
    ensures r.Failure? ==> r.error == NoAssets
    ensures r.Success? ==> multiset(r.value.assetDatas) == multiset(ds) && SortedBy(r.value.assetDatas, NegUsdValue)
  {
    var bySize := SortBy(ds, NegUsdValue);
    var realized := Sum(bySize, RealizedPnL);
    var unrealized := Sum(bySize, UnrealizedPnL);
    var value := Sum(bySize, UsdValue);
    var atLastClose := ValueAtLastClose(bySize);
    var totalCost := Sum(bySize, TotalCost);
    var totalReturn := realized + unrealized;
    if |bySize| == 0 then Failure(NoAssets)
    else
      Success(PortfolioData(
        bySize, realized, unrealized, value,
        MapChartDataArraysToObjects(PortfolioChart(bySize), bySize[0].timestamps),
        PieData(bySize),
        PercentageChangeFrom(atLastClose, value),
        if atLastClose.Some? then Some(value - atLastClose.value) else None,
        totalCost, totalReturn,
        LifetimeReturnPercentAsWritten(totalCost, totalReturn)))
  }

  /** What the hook returns: nothing while an input is missing, a thrown error, or the derived data. */
  datatype Derived = NotReady | Thrown(error: PortfolioError) | Ready(data: PortfolioData)

  /** `usePortfolioDerivedData`. */
  function UsePortfolioDerivedData(
    assets: Option<seq<Asset>>,
    assetsMetadata: Option<seq<AssetMetadata>>,
    prices: Option<map<string, real>>,
    priceChartMap: Option<map<string, PriceChart>>): (r: Derived)
    ensures r.NotReady? <==> assets.None? || assetsMetadata.None? || prices.None? || priceChartMap.None?
    ensures r.Ready? ==> |r.data.assetDatas| == |assets.value|
    ensures !r.NotReady? ==>
              (r.Ready? <==> |assets.value| > 0 && forall k :: 0 <= k < |assets.value| ==>
                 AssetRecord(assets.value[k], assetsMetadata.value, prices.value, priceChartMap.value).Success?)
    ensures r.Thrown? && r.error == NoAssets ==> |assets.value| == 0
  {
    if assets.None? || assetsMetadata.None? || prices.None? || priceChartMap.None? then NotReady
    else
      var step := (a: Asset) => AssetRecord(a, assetsMetadata.value, prices.value, priceChartMap.value);
      match MapResults(assets.value, step)
      case Failure(e) => Thrown(e)
      case Success(ds) =>
        match Rollup(ds)
        case Failure(e) => Thrown(e)
        case Success(data) => Ready(data)
  }

  /**
   * The portfolio sums are the sums of the records' fields, whatever their
   * order; the lifetime return is realized plus unrealized PnL; the daily USD
   * move is the sum of the records' daily moves, and undefined as soon as one
   * of them is.
   */
  lemma RollupTotals(ds: seq<AssetData>)
    requires |ds| > 0
    ensures var p := Rollup(ds).value;
            && p.realizedPnL == Sum(ds, RealizedPnL)
            && p.unrealizedPnL == Sum(ds, UnrealizedPnL)
            && p.usdValue == Sum(ds, UsdValue)
            && p.totalCost == Sum(ds, TotalCost)
            && p.totalReturnUsd == p.realizedPnL + p.unrealizedPnL
            && (p.dailyReturnUsd.Some? <==> forall k :: 0 <= k < |ds| ==> ds[k].dailyReturnUsd.Some?)
            && (p.dailyReturnUsd.Some? ==> p.dailyReturnUsd.value == Sum(ds, DailyUsd))
  {
    var bySize := SortBy(ds, NegUsdValue);
    SortBySum(ds, NegUsdValue, RealizedPnL);
    SortBySum(ds, NegUsdValue, UnrealizedPnL);
    SortBySum(ds, NegUsdValue, UsdValue);
    SortBySum(ds, NegUsdValue, TotalCost);
    SortBySum(ds, NegUsdValue, DailyUsd);
    SamePresence(ds, bySize);
  }

  /**
   * The portfolio's daily percentage does not depend on the order of the
   * records: it is the change from the value at the last close of the records
   * in input order (undefined as soon as one daily move is) to the current value.
   */
  lemma RollupDailyPercent(ds: seq<AssetData>)
    requires |ds| > 0
    ensures Rollup(ds).value.dailyReturnPercent == PercentageChangeFrom(ValueAtLastClose(ds), Rollup(ds).value.usdValue)
  {
    var bySize := SortBy(ds, NegUsdValue);
    ValueAtLastCloseSorted(ds);
    assert Rollup(ds).value.dailyReturnPercent == PercentageChangeFrom(ValueAtLastClose(bySize), Rollup(ds).value.usdValue);
  }

  /** Sorting the records by value leaves the value at the last close unchanged. */
  lemma ValueAtLastCloseSorted(ds: seq<AssetData>)
    ensures ValueAtLastClose(SortBy(ds, NegUsdValue)) == ValueAtLastClose(ds)
  {
    var bySize := SortBy(ds, NegUsdValue);
    var sorted, unsorted := ValueAtLastClose(bySize), ValueAtLastClose(ds);
    SamePresence(ds, bySize);
    assert sorted.Some? <==> unsorted.Some?;
    if sorted.Some? {
      SortBySum(ds, NegUsdValue, UsdValue);
      SortBySum(ds, NegUsdValue, DailyUsd);
      assert sorted.value == Sum(bySize, UsdValue) - Sum(bySize, DailyUsd);
      assert unsorted.value == Sum(ds, UsdValue) - Sum(ds, DailyUsd);
    }
  }

  /** `p` is `ret` as a percentage of `cost`, undefined exactly when `cost` is 0. */
  ghost predicate IsPercentageOf(cost: real, ret: real, p: Option<real>) {
    && (p.None? <==> cost == 0.0)
    && (p.Some? ==> cost * p.value / 100.0 == ret)
  }

  /** `p` is the change from `before` to `after` in percent, undefined when `before` is 0. */
  ghost predicate IsPercentageChange(before: real, after: real, p: Option<real>) {
    && (p.None? <==> before == 0.0)
    && (p.Some? ==> before + before * p.value / 100.0 == after)
  }

  /**
   * The portfolio's lifetime percentage, as the hook computes it, is the
   * change from the total cost to the total return; adding 100 to it gives
   * the total return as a percentage of the total cost.
   */
  lemma RollupLifetimePercent(ds: seq<AssetData>)
    requires |ds| > 0
    ensures var p := Rollup(ds).value;
            && IsPercentageChange(p.totalCost, p.totalReturnUsd, p.totalReturnPercent)
            && (p.totalReturnPercent.Some? ==> IsPercentageOf(p.totalCost, p.totalReturnUsd, Some(p.totalReturnPercent.value + 100.0)))
  {
    var p := Rollup(ds).value;
    assert p.totalReturnPercent == LifetimeReturnPercentAsWritten(p.totalCost, p.totalReturnUsd);
    LifetimeAsWrittenIsChange(p.totalCost, p.totalReturnUsd);
  }

  lemma LifetimeAsWrittenIsChange(cost: real, ret: real)
    ensures IsPercentageChange(cost, ret, LifetimeReturnPercentAsWritten(cost, ret))
    ensures LifetimeReturnPercentAsWritten(cost, ret).Some? ==>
              IsPercentageOf(cost, ret, Some(LifetimeReturnPercentAsWritten(cost, ret).value + 100.0))
  {
    if cost != 0.0 {
      LifetimeReturnPercentOffByHundred(cost, ret);
      assert LifetimeReturnPercent(cost, ret) == Some(LifetimeReturnPercentAsWritten(cost, ret).value + 100.0);
    }
  }

  /** Two permutations of each other either both have every daily move defined or both do not. */
  lemma SamePresence(ds: seq<AssetData>, es: seq<AssetData>)
    requires multiset(ds) == multiset(es)
    ensures (forall k :: 0 <= k < |ds| ==> ds[k].dailyReturnUsd.Some?) <==> (forall k :: 0 <= k < |es| ==> es[k].dailyReturnUsd.Some?)
  {
    if forall k :: 0 <= k < |ds| ==> ds[k].dailyReturnUsd.Some? {
      forall k | 0 <= k < |es|
        ensures es[k].dailyReturnUsd.Some?
      {
        assert es[k] in multiset(ds);
      }
    }
    if forall k :: 0 <= k < |es| ==> es[k].dailyReturnUsd.Some? {
      forall k | 0 <= k < |ds|
        ensures ds[k].dailyReturnUsd.Some?
      {
        assert ds[k] in multiset(es);
      }
    }
  }

  /** The records come largest position first; records of equal value keep their input order. */
  lemma RollupOrder(ds: seq<AssetData>)
    requires |ds| > 0
    ensures var p := Rollup(ds).value;
            && (forall k :: 0 <= k < |p.assetDatas| ==> p.assetDatas[0].usdValue >= p.assetDatas[k].usdValue)
            && (forall v :: WithKey(p.assetDatas, NegUsdValue, v) == WithKey(ds, NegUsdValue, v))
  {
    var bySize := SortBy(ds, NegUsdValue);
    assert Rollup(ds).value.assetDatas == bySize;
    forall k | 0 <= k < |bySize|
      ensures bySize[0].usdValue >= bySize[k].usdValue
    {
      if k > 0 {
        assert NegUsdValue(bySize[0]) <= NegUsdValue(bySize[k]);
      }
    }
  }

  /** One pie slice per record, in the records' order, adding up to the portfolio value. */
  lemma RollupPie(ds: seq<AssetData>)
    requires |ds| > 0
    ensures var p := Rollup(ds).value;
            && |p.compositionPie| == |p.assetDatas|
            && (forall k :: 0 <= k < |p.assetDatas| ==> p.compositionPie[k] == PieDatum(p.assetDatas[k].symbol, p.assetDatas[k].usdValue))
            && Sum(p.compositionPie, PieValue) == p.usdValue
  {
    var bySize := SortBy(ds, NegUsdValue);
    assert Rollup(ds).value.assetDatas == bySize;
    assert Rollup(ds).value.compositionPie == PieData(bySize);
    PieTotalsValue(bySize);
  }

  /**
   * The area chart's point `i` is the sum over all records of their value on
   * day `i`, whatever the records' order, and is dated by the largest
   * position's timestamps.
   */
  lemma RollupAreaChart(ds: seq<AssetData>)
    requires |ds| > 0
    ensures var p := Rollup(ds).value;
            && |p.dailyAreaChart| == LongestSeries(p.assetDatas)
            && (forall i :: 0 <= i < |p.dailyAreaChart| ==> p.dailyAreaChart[i].value == ColumnSum(ds, i))
            && (forall i :: 0 <= i < |p.dailyAreaChart| ==>
                  (p.dailyAreaChart[i].date.Some? <==> i < |p.assetDatas[0].timestamps|)
                  && (p.dailyAreaChart[i].date.Some? ==> p.dailyAreaChart[i].date.value == p.assetDatas[0].timestamps[i]))
  {
    var bySize := SortBy(ds, NegUsdValue);
    var chart := PortfolioChart(bySize);
    assert Rollup(ds).value.assetDatas == bySize;
    assert Rollup(ds).value.dailyAreaChart == MapChartDataArraysToObjects(chart, bySize[0].timestamps);
    PortfolioChartColumns(bySize);
    ChartRoundTrip(chart, bySize[0].timestamps);
    forall i | 0 <= i < |chart|
      ensures chart[i] == ColumnSum(ds, i)
    {
      ColumnSumSorted(ds, i);
    }
  }

  /**
   * Every derived record is the record of one of the assets, each asset's
   * record appearing once per occurrence of the asset, and the hook's data is
   * the roll-up of those records, so the Rollup lemmas describe it.
   */
  lemma DerivedRecordsAreAssetRecords(
    assets: seq<Asset>, assetsMetadata: seq<AssetMetadata>, prices: map<string, real>, priceChartMap: map<string, PriceChart>)
    requires |assets| > 0
    requires forall k :: 0 <= k < |assets| ==> AssetRecord(assets[k], assetsMetadata, prices, priceChartMap).Success?
    ensures UsePortfolioDerivedData(Some(assets), Some(assetsMetadata), Some(prices), Some(priceChartMap)).Ready?
    ensures var p := UsePortfolioDerivedData(Some(assets), Some(assetsMetadata), Some(prices), Some(priceChartMap)).data;
            exists ds: seq<AssetData> :: |ds| == |assets|
                         && (forall k :: 0 <= k < |assets| ==> AssetRecord(assets[k], assetsMetadata, prices, priceChartMap) == Success(ds[k]))
                         && multiset(p.assetDatas) == multiset(ds)
                         && Rollup(ds) == Success(p)
  {
    var step := (a: Asset) => AssetRecord(a, assetsMetadata, prices, priceChartMap);
    var ds := MapResults(assets, step).value;
    assert forall k :: 0 <= k < |assets| ==> AssetRecord(assets[k], assetsMetadata, prices, priceChartMap) == Success(ds[k]) by {
      assert forall k :: 0 <= k < |assets| ==> step(assets[k]) == Success(ds[k]);
    }
    HookRollsUp(assets, assetsMetadata, prices, priceChartMap, ds);
  }

  /** Given the record of every asset, the hook is ready with the roll-up of those records. */
  lemma HookRollsUp(
    assets: seq<Asset>, assetsMetadata: seq<AssetMetadata>, prices: map<string, real>, priceChartMap: map<string, PriceChart>,
    ds: seq<AssetData>)
    requires |assets| > 0 && |ds| == |assets|
    requires forall k :: 0 <= k < |assets| ==> AssetRecord(assets[k], assetsMetadata, prices, priceChartMap) == Success(ds[k])
    ensures Rollup(ds).Success?
    ensures UsePortfolioDerivedData(Some(assets), Some(assetsMetadata), Some(prices), Some(priceChartMap)) == Ready(Rollup(ds).value)
  {
    var step := (a: Asset) => AssetRecord(a, assetsMetadata, prices, priceChartMap);
    assert MapResults(assets, step).value == ds;
  }
}
