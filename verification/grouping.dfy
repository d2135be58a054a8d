/**
 * `useAssets`: the trades sorted by date, grouped by symbol, and turned into
 * one asset per symbol. The memoisation around each step is left out; each
 * step is a pure function of the trades.
 */
module Grouping {
  import opened Wrappers
  import opened Events
  import opened Sums
  import opened Sorting
  import opened Assets

  /** The sort key: `buyDate` of a buy, `sellDate` of a sell. */
  function TradeDate(t: TradeEvent): real { t.Date() }

  function TradeSymbol(t: TradeEvent): string { t.Asset() }

  /**
   * `tradesSortedByRecency`: a stable sort by date. The key function throws on
   * a record whose tag is neither buy nor sell; the keys are computed in input
   * order, so the first such record is the one reported.
   */
  function SortTrades(raws: seq<RawTrade>): (r: Result<seq<TradeEvent>, UnknownTradeType>)
    ensures r.Success? <==> forall i :: 0 <= i < |raws| ==> KnownType(raws[i])
    ensures r.Success? ==> |r.value| == |raws| && SortedBy(r.value, TradeDate)
    ensures r.Success? ==> multiset(r.value) == multiset(ClassifyAll(raws).value)
    ensures r.Success? ==> forall k :: WithKey(r.value, TradeDate, k) == WithKey(ClassifyAll(raws).value, TradeDate, k)
    ensures r.Failure? ==> r == Failure(ClassifyAll(raws).error)
  {
    match ClassifyAll(raws)
    case Failure(e) => Failure(e)
    case Success(ts) => Success(SortBy(ts, TradeDate))
  }

  /** The trades of one symbol, in their order in `trades`. */
  function OfSymbol(trades: seq<TradeEvent>, symbol: string): seq<TradeEvent>
    decreases |trades|
  {
    if |trades| == 0 then []
    else (if trades[0].Asset() == symbol then [trades[0]] else []) + OfSymbol(trades[1..], symbol)
  }

  lemma {:induction false} OfSymbolSnoc(trades: seq<TradeEvent>, t: TradeEvent, symbol: string)
    ensures OfSymbol(trades + [t], symbol) == OfSymbol(trades, symbol) + (if t.Asset() == symbol then [t] else [])
    decreases |trades|
  {
    if |trades| == 0 {
      assert trades + [t] == [t];
    } else {
      assert (trades + [t])[0] == trades[0];
      assert (trades + [t])[1..] == trades[1..] + [t];
      OfSymbolSnoc(trades[1..], t, symbol);
      var head := if trades[0].Asset() == symbol then [trades[0]] else [];
      var last := if t.Asset() == symbol then [t] else [];
      assert head + (OfSymbol(trades[1..], symbol) + last) == (head + OfSymbol(trades[1..], symbol)) + last;
    }
  }

  /** A trade is in a symbol's subsequence exactly when it is a trade of that symbol. */
  lemma {:induction false} OfSymbolMembers(trades: seq<TradeEvent>, symbol: string)
    ensures forall t :: t in OfSymbol(trades, symbol) <==> t in trades && t.Asset() == symbol
    decreases |trades|
  {
    if |trades| > 0 {
      OfSymbolMembers(trades[1..], symbol);
      assert trades == [trades[0]] + trades[1..];
    }
  }

  /** A subsequence of a date-sorted list is date-sorted. */
  lemma {:induction false} OfSymbolSorted(trades: seq<TradeEvent>, symbol: string)
    requires SortedBy(trades, TradeDate)
    ensures SortedBy(OfSymbol(trades, symbol), TradeDate)
    decreases |trades|
  {
    if |trades| > 0 {
      OfSymbolSorted(trades[1..], symbol);
      OfSymbolMembers(trades[1..], symbol);
      var rest := OfSymbol(trades[1..], symbol);
      forall j | 0 <= j < |rest|
        ensures TradeDate(trades[0]) <= TradeDate(rest[j])
      {
        assert rest[j] in trades[1..];
        var i :| 0 <= i < |trades[1..]| && trades[1..][i] == rest[j];
        assert trades[i + 1] == rest[j];
      }
    }
  }

  /** One entry of the object `groupBy` builds: a symbol and its trades. */
  datatype TradeGroup = TradeGroup(symbol: string, trades: seq<TradeEvent>)

  ghost predicate DistinctSymbols(gs: seq<TradeGroup>) {
    forall k, l :: 0 <= k < l < |gs| ==> gs[k].symbol != gs[l].symbol
  }

  /** Appends `t` to its symbol's group, or opens a new group at the end for a symbol not seen yet. */
  function AddTrade(gs: seq<TradeGroup>, t: TradeEvent): (r: seq<TradeGroup>)
    requires DistinctSymbols(gs)
    ensures DistinctSymbols(r)
    ensures |gs| <= |r| <= |gs| + 1
    ensures forall k :: 0 <= k < |gs| ==>
              r[k] == TradeGroup(gs[k].symbol, gs[k].trades + (if gs[k].symbol == t.Asset() then [t] else []))
    ensures |r| == |gs| + 1 <==> forall k :: 0 <= k < |gs| ==> gs[k].symbol != t.Asset()
    ensures |r| == |gs| + 1 ==> r[|gs|] == TradeGroup(t.Asset(), [t])
    decreases |gs|
  {
    if |gs| == 0 then [TradeGroup(t.Asset(), [t])]
    else if gs[0].symbol == t.Asset() then [gs[0].(trades := gs[0].trades + [t])] + gs[1..]
    else [gs[0]] + AddTrade(gs[1..], t)
  }

  /** lodash `groupBy` by `asset`, in the order symbols first appear; each group keeps the input order. */
  function GroupBySymbol(trades: seq<TradeEvent>): (gs: seq<TradeGroup>)
    ensures DistinctSymbols(gs)
    ensures |gs| <= |trades|
    decreases |trades|
  {
    if |trades| == 0 then []
    else AddTrade(GroupBySymbol(trades[..|trades| - 1]), trades[|trades| - 1])
  }

  /**
   * The grouping is exact: each group holds precisely its symbol's trades in
   * input order, is non-empty, and every trade's symbol has a group.
   */
  ghost predicate GroupedBySymbol(trades: seq<TradeEvent>, gs: seq<TradeGroup>) {
    GroupsAreFilters(trades, gs) && CoversSymbols(trades, gs)
  }

  ghost predicate GroupsAreFilters(trades: seq<TradeEvent>, gs: seq<TradeGroup>) {
    forall k :: 0 <= k < |gs| ==> gs[k].trades == OfSymbol(trades, gs[k].symbol) && |gs[k].trades| > 0
  }

  ghost predicate CoversSymbols(trades: seq<TradeEvent>, gs: seq<TradeGroup>) {
    forall i :: 0 <= i < |trades| ==> exists k :: 0 <= k < |gs| && gs[k].symbol == trades[i].Asset()
  }

  /** A symbol with no group has no trades. */
  lemma UngroupedSymbolAbsent(trades: seq<TradeEvent>, gs: seq<TradeGroup>, symbol: string)
    requires GroupedBySymbol(trades, gs)
    requires forall k :: 0 <= k < |gs| ==> gs[k].symbol != symbol
    ensures OfSymbol(trades, symbol) == []
  {
    forall j | 0 <= j < |trades|
      ensures trades[j].Asset() != symbol
    {
      var l :| 0 <= l < |gs| && gs[l].symbol == trades[j].Asset();
    }
    OfSymbolNone(trades, symbol);
  }

  lemma {:induction false} OfSymbolNone(trades: seq<TradeEvent>, symbol: string)
    requires forall j :: 0 <= j < |trades| ==> trades[j].Asset() != symbol
    ensures OfSymbol(trades, symbol) == []
    decreases |trades|
  {
    if |trades| > 0 {
      OfSymbolNone(trades[1..], symbol);
    }
  }

  /** Adding one trade keeps every group equal to its symbol's subsequence. */
  lemma AddTradeFilters(init: seq<TradeEvent>, gs: seq<TradeGroup>, t: TradeEvent)
    requires DistinctSymbols(gs) && GroupedBySymbol(init, gs)
    ensures GroupsAreFilters(init + [t], AddTrade(gs, t))
  {
    var r := AddTrade(gs, t);
    forall k | 0 <= k < |r|
      ensures r[k].trades == OfSymbol(init + [t], r[k].symbol) && |r[k].trades| > 0
    {
      OfSymbolSnoc(init, t, r[k].symbol);
      if k == |gs| {
        UngroupedSymbolAbsent(init, gs, t.Asset());
      }
    }
  }

  /** Adding one trade keeps every trade's symbol grouped, the new trade's included. */
  lemma AddTradeCovers(init: seq<TradeEvent>, gs: seq<TradeGroup>, t: TradeEvent)
    requires DistinctSymbols(gs) && GroupedBySymbol(init, gs)
    ensures CoversSymbols(init + [t], AddTrade(gs, t))
  {
    var r := AddTrade(gs, t);
    var trades := init + [t];
    forall i | 0 <= i < |trades|
      ensures exists k :: 0 <= k < |r| && r[k].symbol == trades[i].Asset()
    {
      if i < |init| {
        assert trades[i] == init[i];
        var k :| 0 <= k < |gs| && gs[k].symbol == init[i].Asset();
        assert r[k].symbol == trades[i].Asset();
      } else if |r| == |gs| {
        var k :| 0 <= k < |gs| && gs[k].symbol == t.Asset();
        assert r[k].symbol == trades[i].Asset();
      } else {
        assert r[|gs|].symbol == trades[i].Asset();
      }
    }
  }

  lemma {:induction false} GroupBySymbolExact(trades: seq<TradeEvent>)
    ensures GroupedBySymbol(trades, GroupBySymbol(trades))
    decreases |trades|
  {
    if |trades| > 0 {
      var init, t := trades[..|trades| - 1], trades[|trades| - 1];
      assert trades == init + [t];
      GroupBySymbolExact(init);
      AddTradeFilters(init, GroupBySymbol(init), t);
      AddTradeCovers(init, GroupBySymbol(init), t);
    }
  }

  /** The total size of the groups. */
  function GroupedCount(gs: seq<TradeGroup>): nat
    decreases |gs|
  {
    if |gs| == 0 then 0 else |gs[0].trades| + GroupedCount(gs[1..])
  }

  lemma {:induction false} AddTradeCount(gs: seq<TradeGroup>, t: TradeEvent)
    requires DistinctSymbols(gs)
    ensures GroupedCount(AddTrade(gs, t)) == GroupedCount(gs) + 1
    decreases |gs|
  {
    if |gs| > 0 && gs[0].symbol != t.Asset() {
      AddTradeCount(gs[1..], t);
      assert ([gs[0]] + AddTrade(gs[1..], t))[1..] == AddTrade(gs[1..], t);
    } else if |gs| > 0 {
      assert ([gs[0].(trades := gs[0].trades + [t])] + gs[1..])[1..] == gs[1..];
    }
  }

  /** Every trade lands in exactly one group: the group sizes add up to the number of trades. */
  lemma {:induction false} GroupBySymbolCount(trades: seq<TradeEvent>)
    ensures GroupedCount(GroupBySymbol(trades)) == |trades|
    decreases |trades|
  {
    if |trades| > 0 {
      GroupBySymbolCount(trades[..|trades| - 1]);
      AddTradeCount(GroupBySymbol(trades[..|trades| - 1]), trades[|trades| - 1]);
    }
  }

  /** Splitting a date-sorted trade list yields date-sorted buys and date-sorted sells. */
  lemma {:induction false} SplitKeepsDateOrder(assetId: string, trades: seq<TradeEvent>)
    requires SortedBy(trades, TradeDate)
    ensures SortedBy(SplitTrades(assetId, trades).buys, BuyDateOf)
    ensures SortedBy(SplitTrades(assetId, trades).sells, SellDateOf)
    decreases |trades|
  {
    if |trades| > 0 {
      var init, t := trades[..|trades| - 1], trades[|trades| - 1];
      assert trades == init + [t];
      SplitKeepsDateOrder(assetId, init);
      SplitMembers(assetId, init);
      var a := SplitTrades(assetId, init);
      forall b | b in a.buys
        ensures b.buyDate <= TradeDate(t)
      {
        var j :| 0 <= j < |init| && init[j] == Buy(b);
        assert TradeDate(trades[j]) <= TradeDate(trades[|trades| - 1]);
      }
      forall s | s in a.sells
        ensures s.sellDate <= TradeDate(t)
      {
        var j :| 0 <= j < |init| && init[j] == Sell(s);
        assert TradeDate(trades[j]) <= TradeDate(trades[|trades| - 1]);
      }
    }
  }

  function BuyDateOf(b: BuyEvent): real { b.buyDate }
  function SellDateOf(s: SellEvent): real { s.sellDate }

  /** The three values `useAssets` returns. */
  datatype AssetsView = AssetsView(tradesSortedByRecency: seq<TradeEvent>, tradesGroupedByAsset: seq<TradeGroup>, assets: seq<Asset>)

  /** One asset per group, built from the group's trades and keyed by the group's symbol. */
  function AssetsOf(gs: seq<TradeGroup>): (assets: seq<Asset>)
    ensures |assets| == |gs|
    ensures forall k :: 0 <= k < |gs| ==> assets[k].assetId == gs[k].symbol
  {
    seq(|gs|, k requires 0 <= k < |gs| => SplitTrades(gs[k].symbol, gs[k].trades))
  }

  /**
   * `useAssets`: with no trades yet (`undefined`) lodash yields an empty sort,
   * an empty grouping and no assets; otherwise a record with an unknown tag
   * throws during the sort.
   */
  function UseAssets(tradeEvents: Option<seq<RawTrade>>): (r: Result<AssetsView, UnknownTradeType>)
    ensures tradeEvents.None? ==> r == Success(AssetsView([], [], []))
    ensures tradeEvents.Some? ==> (r.Success? <==> forall i :: 0 <= i < |tradeEvents.value| ==> KnownType(tradeEvents.value[i]))
    ensures r.Success? ==> |r.value.assets| == |r.value.tradesGroupedByAsset|
    ensures tradeEvents.Some? && r.Failure? ==> r == Failure(ClassifyAll(tradeEvents.value).error)
    ensures tradeEvents.Some? && r.Success? ==>
              && r.value.tradesSortedByRecency == SortTrades(tradeEvents.value).value
              && r.value.tradesGroupedByAsset == GroupBySymbol(r.value.tradesSortedByRecency)
              && r.value.assets == AssetsOf(r.value.tradesGroupedByAsset)
  {
    match tradeEvents
    case None => Success(AssetsView([], [], []))
    case Some(raws) =>
      match SortTrades(raws)
      case Failure(e) => Failure(e)
      case Success(sorted) =>
        var groups := GroupBySymbol(sorted);
        Success(AssetsView(sorted, groups, AssetsOf(groups)))
  }

  /**
   * The hook's sorted list is the input records, classified and stably sorted
   * by date; its grouping holds each symbol's trades exactly once, in that order.
   */
  lemma UseAssetsView(raws: seq<RawTrade>)
    requires UseAssets(Some(raws)).Success?
    ensures var v := UseAssets(Some(raws)).value;
            var ts := ClassifyAll(raws).value;
            && ClassifyAll(raws).Success?
            && |v.tradesSortedByRecency| == |raws|
            && multiset(v.tradesSortedByRecency) == multiset(ts)
            && SortedBy(v.tradesSortedByRecency, TradeDate)
            && (forall key :: WithKey(v.tradesSortedByRecency, TradeDate, key) == WithKey(ts, TradeDate, key))
            && DistinctSymbols(v.tradesGroupedByAsset)
            && GroupedBySymbol(v.tradesSortedByRecency, v.tradesGroupedByAsset)
  {
    GroupBySymbolExact(UseAssets(Some(raws)).value.tradesSortedByRecency);
  }

  /**
   * One asset per distinct symbol: asset ids are distinct, every trade's
   * symbol is some asset's id, and each asset is exactly the split of its
   * symbol's trades in date order, so its buys and its sells are date-sorted.
   */
  lemma UseAssetsOnePerSymbol(raws: seq<RawTrade>)
    requires UseAssets(Some(raws)).Success?
    ensures var v := UseAssets(Some(raws)).value;
            && (forall k, l :: 0 <= k < l < |v.assets| ==> v.assets[k].assetId != v.assets[l].assetId)
            && (forall i :: 0 <= i < |v.tradesSortedByRecency| ==>
                  exists k :: 0 <= k < |v.assets| && v.assets[k].assetId == v.tradesSortedByRecency[i].Asset())
            && (forall k :: 0 <= k < |v.assets| ==>
                  v.assets[k] == SplitTrades(v.assets[k].assetId, OfSymbol(v.tradesSortedByRecency, v.assets[k].assetId)))
  {
    var v := UseAssets(Some(raws)).value;
    var sorted := v.tradesSortedByRecency;
    GroupBySymbolExact(sorted);
    AssetsOfGroups(sorted, GroupBySymbol(sorted));
  }

  /** Some asset has the id `symbol`. */
  ghost predicate HasAsset(assets: seq<Asset>, symbol: string) {
    exists k :: 0 <= k < |assets| && assets[k].assetId == symbol
  }

  /** Every input record's symbol is the id of some asset of the hook. */
  lemma UseAssetsCoversRecords(raws: seq<RawTrade>)
    requires UseAssets(Some(raws)).Success?
    ensures forall i :: 0 <= i < |raws| ==> HasAsset(UseAssets(Some(raws)).value.assets, raws[i].asset)
  {
    var v := UseAssets(Some(raws)).value;
    UseAssetsView(raws);
    UseAssetsOnePerSymbol(raws);
    RecordsCovered(raws, ClassifyAll(raws).value, v.tradesSortedByRecency, v.assets);
  }

  /** Symbols covered for a permutation of the classified records are covered for the records themselves. */
  lemma RecordsCovered(raws: seq<RawTrade>, ts: seq<TradeEvent>, sorted: seq<TradeEvent>, assets: seq<Asset>)
    requires |ts| == |raws| && forall i :: 0 <= i < |raws| ==> ToRaw(ts[i]) == raws[i]
    requires multiset(sorted) == multiset(ts)
    requires forall i :: 0 <= i < |sorted| ==> exists k :: 0 <= k < |assets| && assets[k].assetId == sorted[i].Asset()
    ensures forall i :: 0 <= i < |raws| ==> HasAsset(assets, raws[i].asset)
  {
    forall i | 0 <= i < |raws|
      ensures HasAsset(assets, raws[i].asset)
    {
      RawAsset(ts[i]);
      assert ts[i] in multiset(sorted);
      var j :| 0 <= j < |sorted| && sorted[j] == ts[i];
      var k :| 0 <= k < |assets| && assets[k].assetId == sorted[j].Asset();
      assert assets[k].assetId == raws[i].asset;
    }
  }

  /** A trade's symbol survives the round trip through its tagged record. */
  lemma RawAsset(t: TradeEvent)
    ensures ToRaw(t).asset == t.Asset()
  {
  }

  /** The assets built from an exact grouping: one per symbol, each the split of its symbol's trades. */
  lemma AssetsOfGroups(trades: seq<TradeEvent>, gs: seq<TradeGroup>)
    requires DistinctSymbols(gs) && GroupedBySymbol(trades, gs)
    ensures var assets := AssetsOf(gs);
            && (forall k, l :: 0 <= k < l < |assets| ==> assets[k].assetId != assets[l].assetId)
            && (forall i :: 0 <= i < |trades| ==> exists k :: 0 <= k < |assets| && assets[k].assetId == trades[i].Asset())
            && (forall k :: 0 <= k < |assets| ==> assets[k] == SplitTrades(assets[k].assetId, OfSymbol(trades, assets[k].assetId)))
  {
    var assets := AssetsOf(gs);
    assert forall k :: 0 <= k < |assets| ==> assets[k].assetId == gs[k].symbol;
    forall i | 0 <= i < |trades|
      ensures exists k :: 0 <= k < |assets| && assets[k].assetId == trades[i].Asset()
    {
      var k :| 0 <= k < |gs| && gs[k].symbol == trades[i].Asset();
      assert assets[k].assetId == gs[k].symbol;
    }
  }

  lemma UseAssetsDateOrdered(raws: seq<RawTrade>)
    requires UseAssets(Some(raws)).Success?
    ensures var v := UseAssets(Some(raws)).value;
            forall k :: 0 <= k < |v.assets| ==>
              SortedBy(v.assets[k].buys, BuyDateOf) && SortedBy(v.assets[k].sells, SellDateOf)
  {
    var v := UseAssets(Some(raws)).value;
    var sorted := v.tradesSortedByRecency;
    GroupBySymbolExact(sorted);
    forall k | 0 <= k < |v.assets|
      ensures SortedBy(v.assets[k].buys, BuyDateOf) && SortedBy(v.assets[k].sells, SellDateOf)
    {
      var g := v.tradesGroupedByAsset[k];
      OfSymbolSorted(sorted, g.symbol);
      SplitKeepsDateOrder(g.symbol, g.trades);
    }
  }
}
