/**
 * The trade-event model: buy and sell events, the tagged union of the two,
 * and the realized gain/loss records the allocator emits. Dates are unix
 * timestamps and quantities are USD amounts or unit counts, all as `real`.
 */
module Events {
  import opened Wrappers

  /** Capital-gains class of a record; the allocator only ever emits `Short`. */
  datatype CapGains = Short | Long

  /** One sell's allocation against one buy lot (or against no lot). */
  datatype GainLoss = GainLoss(
    amount: real,          // positive for a gain, negative for a loss
    capGains: CapGains,
    sellDate: real,
    buyDate: real,
    unitsSold: real,
    buyUnitPrice: real,
    sellUnitPrice: real)

  datatype SellEvent = SellEvent(asset: string, sellDate: real, amount: real, unitsSold: real, unitPrice: real)

  datatype BuyEvent = BuyEvent(asset: string, buyDate: real, amount: real, unitsBought: real, unitPrice: real)

  /** A trade is exactly one of a buy or a sell. */
  datatype TradeEvent = Buy(buy: BuyEvent) | Sell(sell: SellEvent)
  {
    /** The asset symbol the trade is about. */
    function Asset(): string {
      match this
      case Buy(b) => b.asset
      case Sell(s) => s.asset
    }

    /** `buyDate` of a buy, `sellDate` of a sell. */
    function Date(): real {
      match this
      case Buy(b) => b.buyDate
      case Sell(s) => s.sellDate
    }
  }

  /** The documented relation `amount == unitsSold * unitPrice` of a sell. */
  predicate SellPriced(s: SellEvent) {
    s.amount == s.unitsSold * s.unitPrice
  }

  /** The sign convention of a record: with units sold, a gain exactly when the sale price beats the buy price. */
  lemma GainLossSign(g: GainLoss)
    requires g.amount == g.unitsSold * (g.sellUnitPrice - g.buyUnitPrice)
    requires g.unitsSold > 0.0
    ensures g.amount > 0.0 <==> g.sellUnitPrice > g.buyUnitPrice
    ensures g.amount < 0.0 <==> g.sellUnitPrice < g.buyUnitPrice
  {
    var d := g.sellUnitPrice - g.buyUnitPrice;
    if d > 0.0 {
      assert g.unitsSold * d > 0.0;
    } else if d < 0.0 {
      assert g.unitsSold * -d > 0.0;
    } else {
      assert g.amount == 0.0;
    }
  }

  /**
   * A trade record as it arrives from the trade-history store, before its
   * `type` tag has been checked: `date` and `units` stand for
   * `buyDate`/`unitsBought` of a buy and `sellDate`/`unitsSold` of a sell.
   */
  datatype RawTrade = RawTrade(tradeType: string, asset: string, date: real, amount: real, units: real, unitPrice: real)

  /** The error thrown for a record whose `type` is neither `"BUY"` nor `"SELL"`. */
  datatype UnknownTradeType = UnknownTradeType(tradeType: string)

  predicate KnownType(raw: RawTrade) {
    raw.tradeType == "BUY" || raw.tradeType == "SELL"
  }

  function ToRaw(t: TradeEvent): (raw: RawTrade)
    ensures KnownType(raw)
  {
    match t
    case Buy(b) => RawTrade("BUY", b.asset, b.buyDate, b.amount, b.unitsBought, b.unitPrice)
    case Sell(s) => RawTrade("SELL", s.asset, s.sellDate, s.amount, s.unitsSold, s.unitPrice)
  }

  /** The `switch (tradeEvent.type)` of the source: a buy, a sell, or the unknown-type error. */
  function Classify(raw: RawTrade): (r: Result<TradeEvent, UnknownTradeType>)
    ensures r.Success? <==> KnownType(raw)
    ensures r.Success? ==> ToRaw(r.value) == raw
    ensures r.Failure? ==> r.error == UnknownTradeType(raw.tradeType)
  {
    if raw.tradeType == "BUY" then Success(Buy(BuyEvent(raw.asset, raw.date, raw.amount, raw.units, raw.unitPrice)))
    else if raw.tradeType == "SELL" then Success(Sell(SellEvent(raw.asset, raw.date, raw.amount, raw.units, raw.unitPrice)))
    else Failure(UnknownTradeType(raw.tradeType))
  }

  /** A typed trade always passes the tag check: the unknown-type branch is unreachable for it. */
  lemma ClassifyToRaw(t: TradeEvent)
    ensures Classify(ToRaw(t)) == Success(t)
  {
  }

  /** Classifies every record in order; the first record with an unknown tag aborts the whole list. */
  function ClassifyAll(raws: seq<RawTrade>): (r: Result<seq<TradeEvent>, UnknownTradeType>)
    ensures r.Success? <==> forall i :: 0 <= i < |raws| ==> KnownType(raws[i])
    ensures r.Success? ==> |r.value| == |raws| && forall i :: 0 <= i < |raws| ==> ToRaw(r.value[i]) == raws[i]
    ensures r.Failure? ==> exists i :: 0 <= i < |raws| && !KnownType(raws[i]) && r.error == UnknownTradeType(raws[i].tradeType)
                                        && forall j :: 0 <= j < i ==> KnownType(raws[j])
    decreases |raws|
  {
    if |raws| == 0 then Success([])
    else
      match Classify(raws[0])
      case Failure(e) => Failure(e)
      case Success(t) =>
        match ClassifyAll(raws[1..])
        case Failure(e) =>
          ghost var i :| 0 <= i < |raws[1..]| && !KnownType(raws[1..][i]) && e == UnknownTradeType(raws[1..][i].tradeType)
                         && forall j :: 0 <= j < i ==> KnownType(raws[1..][j]);
          assert raws[i + 1] == raws[1..][i];
          Failure(e)
        case Success(ts) => Success([t] + ts)
  }
}
