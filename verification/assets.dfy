/** `createAssetFromTrades`: one asset's trade list split into its buys and its sells. */
module Assets {
  import opened Wrappers
  import opened Events

  /** A token or stock together with the user's buy and sell history for it. */
  datatype Asset = Asset(buys: seq<BuyEvent>, sells: seq<SellEvent>, assetId: string)

  /**
   * The `forEach` over typed trades: each buy is pushed onto `buys`, each
   * sell onto `sells`. The trades' own `asset` fields are not checked
   * against `assetId`.
   */
  function SplitTrades(assetId: string, trades: seq<TradeEvent>): (a: Asset)
    ensures a.assetId == assetId
    ensures |a.buys| + |a.sells| == |trades|
    decreases |trades|
  {
    if |trades| == 0 then Asset([], [], assetId)
    else
      var a := SplitTrades(assetId, trades[..|trades| - 1]);
      match trades[|trades| - 1]
      case Buy(b) => a.(buys := a.buys + [b])
      case Sell(s) => a.(sells := a.sells + [s])
  }

  /** Splitting a concatenation splits each part and concatenates the halves: the input order of buys and of sells survives. */
  lemma {:induction false} SplitConcat(assetId: string, x: seq<TradeEvent>, y: seq<TradeEvent>)
    ensures SplitTrades(assetId, x + y).buys == SplitTrades(assetId, x).buys + SplitTrades(assetId, y).buys
    ensures SplitTrades(assetId, x + y).sells == SplitTrades(assetId, x).sells + SplitTrades(assetId, y).sells
    decreases |y|
  {
    if |y| == 0 {
      assert x + y == x;
    } else {
      var y' := y[..|y| - 1];
      assert (x + y)[..|x + y| - 1] == x + y';
      assert (x + y)[|x + y| - 1] == y[|y| - 1];
      SplitConcat(assetId, x, y');
    }
  }

  /** The trades rebuilt from an asset: every buy, then every sell. */
  function Rejoin(a: Asset): (ts: seq<TradeEvent>)
    ensures |ts| == |a.buys| + |a.sells|
  {
    seq(|a.buys|, i requires 0 <= i < |a.buys| => Buy(a.buys[i]))
      + seq(|a.sells|, i requires 0 <= i < |a.sells| => Sell(a.sells[i]))
  }

  /** Nothing is dropped or duplicated: the split halves, rejoined, are a permutation of the trades. */
  lemma {:induction false} SplitIsPermutation(assetId: string, trades: seq<TradeEvent>)
    ensures multiset(Rejoin(SplitTrades(assetId, trades))) == multiset(trades)
    decreases |trades|
  {
    if |trades| > 0 {
      var init, t := trades[..|trades| - 1], trades[|trades| - 1];
      assert trades == init + [t];
      SplitIsPermutation(assetId, init);
      var a := SplitTrades(assetId, init);
      var bs := seq(|a.buys|, i requires 0 <= i < |a.buys| => Buy(a.buys[i]));
      var ss := seq(|a.sells|, i requires 0 <= i < |a.sells| => Sell(a.sells[i]));
      match t
      case Buy(b) =>
        var bs' := seq(|a.buys| + 1, i requires 0 <= i < |a.buys| + 1 => Buy((a.buys + [b])[i]));
        assert bs' == bs + [Buy(b)];
        assert Rejoin(SplitTrades(assetId, trades)) == bs' + ss;
      case Sell(s) =>
        var ss' := seq(|a.sells| + 1, i requires 0 <= i < |a.sells| + 1 => Sell((a.sells + [s])[i]));
        assert ss' == ss + [Sell(s)];
        assert Rejoin(SplitTrades(assetId, trades)) == bs + ss';
    }
  }

  /** A buy is in `buys`, and a sell in `sells`, exactly when it is among the trades. */
  lemma {:induction false} SplitMembers(assetId: string, trades: seq<TradeEvent>)
    ensures forall b :: b in SplitTrades(assetId, trades).buys <==> Buy(b) in trades
    ensures forall s :: s in SplitTrades(assetId, trades).sells <==> Sell(s) in trades
    decreases |trades|
  {
    if |trades| > 0 {
      var init := trades[..|trades| - 1];
      assert trades == init + [trades[|trades| - 1]];
      SplitMembers(assetId, init);
    }
  }

  /**
   * `createAssetFromTrades` on records whose `type` tag is still unchecked:
   * the first record tagged neither `"BUY"` nor `"SELL"` throws.
   */
  function CreateAssetFromTrades(assetId: string, raws: seq<RawTrade>): (r: Result<Asset, UnknownTradeType>)
    ensures r.Success? <==> forall i :: 0 <= i < |raws| ==> KnownType(raws[i])
    ensures r.Success? ==> r.value.assetId == assetId && |r.value.buys| + |r.value.sells| == |raws|
    ensures r.Failure? ==> exists i :: 0 <= i < |raws| && !KnownType(raws[i]) && r.error == UnknownTradeType(raws[i].tradeType)
                                        && forall j :: 0 <= j < i ==> KnownType(raws[j])
  {
    match ClassifyAll(raws)
    case Failure(e) => Failure(e)
    case Success(ts) => Success(SplitTrades(assetId, ts))
  }

  /** For well-typed trades the error branch is unreachable and the result is the plain split. */
  lemma {:induction false} CreateAssetFromTypedTrades(assetId: string, trades: seq<TradeEvent>)
    ensures CreateAssetFromTrades(assetId, seq(|trades|, i requires 0 <= i < |trades| => ToRaw(trades[i])))
            == Success(SplitTrades(assetId, trades))
  {
    var raws := seq(|trades|, i requires 0 <= i < |trades| => ToRaw(trades[i]));
    var r := ClassifyAll(raws);
    assert r.Success?;
    assert |r.value| == |trades|;
    forall i | 0 <= i < |trades|
      ensures r.value[i] == trades[i]
    {
      ClassifyToRaw(trades[i]);
      ToRawInjective(r.value[i], trades[i]);
    }
    assert r.value == trades;
  }

  lemma ToRawInjective(t: TradeEvent, u: TradeEvent)
    requires ToRaw(t) == ToRaw(u)
    ensures t == u
  {
    ClassifyToRaw(t);
    ClassifyToRaw(u);
  }
}
