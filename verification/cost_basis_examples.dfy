/** The worked scenarios of the allocator's test suite, and the edge cases of its matching rules, over exact reals. */
module CostBasisExamples {
  import opened Wrappers
  import opened Events
  import opened CostBasis
  import opened Assets

  const Buy1 := BuyEvent("BTC", 123.0, 2.0, 4.0, 0.5)
  const Buy2 := BuyEvent("BTC", 123.0, 8.0, 10.0, 0.8)
  const Buy3 := BuyEvent("BTC", 125.0, 10.0, 8.0, 1.25)
  const Sell1 := SellEvent("BTC", 124.0, 12.0, 6.0, 2.0)
  const Sell2 := SellEvent("BTC", 124.0, 1.0, 4.0, 0.25)

  const Lots := [Buy1, Buy2]
  const Lots3 := [Buy1, Buy2, Buy3]

  lemma InputsSorted()
    ensures Sorting.SortedBy(Lots, BuyDate) && Sorting.SortedBy(Lots3, BuyDate)
    ensures Sorting.SortedBy([Sell1, Sell2], SellDate)
  {
  }

  lemma CountersExample()
    ensures Counters(Lots) == [4.0, 10.0]
    ensures Counters(Lots3) == [4.0, 10.0, 8.0]
  {
  }

  lemma LotsSorted()
    ensures SortedLots(Lots) == Lots
  {
    InputsSorted();
    Sorting.SortBySortedIsIdentity(Lots, BuyDate);
  }

  lemma SortedExample()
    ensures SortedLots(Lots) == Lots
    ensures SortedLots(Lots3) == Lots3
    ensures Sorting.SortBy([Sell1, Sell2], SellDate) == [Sell1, Sell2]
    ensures Counters(Lots) == [4.0, 10.0]
    ensures Counters(Lots3) == [4.0, 10.0, 8.0]
  {
    InputsSorted();
    CountersExample();
    Sorting.SortBySortedIsIdentity(Lots, BuyDate);
    Sorting.SortBySortedIsIdentity(Lots3, BuyDate);
    Sorting.SortBySortedIsIdentity([Sell1, Sell2], SellDate);
  }

  /** The first sell empties the first lot (4 units) and cuts the second from 10 to 8. */
  lemma FirstSellExample()
    ensures SettleSell(Lots, [4.0, 10.0], Sell1)
            == Settlement([0.0, 8.0], [FromLot(Sell1, 0, 4.0), FromLot(Sell1, 1, 2.0)], 0.0)
    ensures SettleSell(Lots3, [4.0, 10.0, 8.0], Sell1)
            == Settlement([0.0, 8.0, 8.0], [FromLot(Sell1, 0, 4.0), FromLot(Sell1, 1, 2.0)], 0.0)
  {
    assert [4.0, 10.0][0 := 0.0] == [0.0, 10.0];
    assert [0.0, 10.0][1 := 8.0] == [0.0, 8.0];
    assert WalkLots(Lots, [0.0, 10.0], Sell1, 1, 2.0) == Walk([0.0, 8.0], [FromLot(Sell1, 1, 2.0)], 0.0);
    assert WalkLots(Lots, [4.0, 10.0], Sell1, 0, 6.0)
           == Walk([0.0, 8.0], [FromLot(Sell1, 0, 4.0), FromLot(Sell1, 1, 2.0)], 0.0);
    assert [4.0, 10.0, 8.0][0 := 0.0] == [0.0, 10.0, 8.0];
    assert [0.0, 10.0, 8.0][1 := 8.0] == [0.0, 8.0, 8.0];
    assert WalkLots(Lots3, [0.0, 10.0, 8.0], Sell1, 1, 2.0) == Walk([0.0, 8.0, 8.0], [FromLot(Sell1, 1, 2.0)], 0.0);
    assert WalkLots(Lots3, [4.0, 10.0, 8.0], Sell1, 0, 6.0)
           == Walk([0.0, 8.0, 8.0], [FromLot(Sell1, 0, 4.0), FromLot(Sell1, 1, 2.0)], 0.0);
  }

  /** The second sell skips the exhausted first lot and cuts the second from 8 to 4; a later lot is never reached. */
  lemma SecondSellExample()
    ensures SettleSell(Lots, [0.0, 8.0], Sell2) == Settlement([0.0, 4.0], [FromLot(Sell2, 1, 4.0)], 0.0)
    ensures SettleSell(Lots3, [0.0, 8.0, 8.0], Sell2) == Settlement([0.0, 4.0, 8.0], [FromLot(Sell2, 1, 4.0)], 0.0)
  {
    assert [0.0, 8.0][1 := 4.0] == [0.0, 4.0];
    assert WalkLots(Lots, [0.0, 8.0], Sell2, 1, 4.0) == Walk([0.0, 4.0], [FromLot(Sell2, 1, 4.0)], 0.0);
    assert [0.0, 8.0, 8.0][1 := 4.0] == [0.0, 4.0, 8.0];
    assert WalkLots(Lots3, [0.0, 8.0, 8.0], Sell2, 1, 4.0) == Walk([0.0, 4.0, 8.0], [FromLot(Sell2, 1, 4.0)], 0.0);
  }

  const Matches := [FromLot(Sell1, 0, 4.0), FromLot(Sell1, 1, 2.0), FromLot(Sell2, 1, 4.0)]

  lemma LastSellExample()
    ensures SettleSells(Lots, [0.0, 8.0], [Sell2], false) == Success(Ledger([0.0, 4.0], [FromLot(Sell2, 1, 4.0)], 0.0))
    ensures SettleSells(Lots3, [0.0, 8.0, 8.0], [Sell2], false) == Success(Ledger([0.0, 4.0, 8.0], [FromLot(Sell2, 1, 4.0)], 0.0))
  {
    SecondSellExample();
    assert [Sell2][1..] == [];
    assert [FromLot(Sell2, 1, 4.0)] + [] == [FromLot(Sell2, 1, 4.0)];
  }

  lemma BothSellsExample()
    ensures SettleSells(Lots, [4.0, 10.0], [Sell1, Sell2], false) == Success(Ledger([0.0, 4.0], Matches, 0.0))
    ensures SettleSells(Lots3, [4.0, 10.0, 8.0], [Sell1, Sell2], false) == Success(Ledger([0.0, 4.0, 8.0], Matches, 0.0))
  {
    FirstSellExample();
    LastSellExample();
    assert [Sell1, Sell2][1..] == [Sell2];
    assert [FromLot(Sell1, 0, 4.0), FromLot(Sell1, 1, 2.0)] + [FromLot(Sell2, 1, 4.0)] == Matches;
  }

  lemma AllocateExample()
    ensures Allocate(Lots, [Sell1, Sell2], false) == Success(Ledger([0.0, 4.0], Matches, 0.0))
    ensures Allocate(Lots3, [Sell1, Sell2], false) == Success(Ledger([0.0, 4.0, 8.0], Matches, 0.0))
  {
    SortedExample();
    BothSellsExample();
  }

  const Records := [ GainLoss(6.0, Short, 124.0, 123.0, 4.0, 0.5, 2.0),
                     GainLoss(2.4, Short, 124.0, 123.0, 2.0, 0.8, 2.0),
                     GainLoss(-2.2, Short, 124.0, 123.0, 4.0, 0.8, 0.25) ]

  lemma RecordsExample()
    ensures GainLosses(Lots, Matches) == Records
    ensures GainLosses(Lots3, Matches) == Records
  {
  }

  const Remaining := [BuyEvent("BTC", 123.0, 3.2, 4.0, 0.8)]

  lemma RemainingExample()
    ensures RemainingBuys(Lots, [0.0, 4.0]) == Remaining
    ensures RemainingBuys(Lots3, [0.0, 4.0, 8.0]) == Remaining + [Buy3]
  {
    assert RemainingBuys([Buy3], [8.0]) == [Shrink(Buy3, 8.0)];
    assert RemainingBuys([Buy2], [4.0]) == [Shrink(Buy2, 4.0)];
    assert RemainingBuys([Buy2, Buy3], [4.0, 8.0]) == [Shrink(Buy2, 4.0), Shrink(Buy3, 8.0)] by {
      assert [Buy2, Buy3][1..] == [Buy3];
      assert [4.0, 8.0][1..] == [8.0];
    }
    assert Lots[1..] == [Buy2];
    assert [0.0, 4.0][1..] == [4.0];
    assert Lots3[1..] == [Buy2, Buy3];
    assert [0.0, 4.0, 8.0][1..] == [4.0, 8.0];
  }

  lemma CostBasisDataExample()
    ensures DeriveCostBasisData(Lots, [Sell1, Sell2]) == CostBasisData(Records, Remaining)
    ensures DeriveCostBasisData(Lots3, [Sell1, Sell2]) == CostBasisData(Records, Remaining + [Buy3])
  {
    AllocateExample();
    SortedExample();
    RecordsExample();
    RemainingExample();
  }

  lemma PnLExample()
    ensures DeriveRealizedPnL(Records) == 6.2
    ensures DeriveUnrealizedPnL(Remaining, 2.0) == 4.8
    ensures DeriveUnrealizedPnL(Remaining + [Buy3], 2.0) == 10.8
    ensures DeriveRemainingUnits(Lots, [Sell1, Sell2]) == 4.0
    ensures DeriveRemainingUnits(Lots3, [Sell1, Sell2]) == 12.0
  {
    assert (Remaining + [Buy3])[1..] == [Buy3];
    assert DeriveUnrealizedPnL([Buy3], 2.0) == 6.0;
    assert Lots[1..] == [Buy2] && Lots3[1..] == [Buy2, Buy3] && [Buy2, Buy3][1..] == [Buy3];
    assert [Sell1, Sell2][1..] == [Sell2];
    assert Sums.Sum([Buy2], UnitsBought) == 10.0;
    assert Sums.Sum([Buy2, Buy3], UnitsBought) == 18.0;
    assert Sums.Sum([Sell2], UnitsSold) == 4.0;
  }

  /**
   * Two buys (4 at 0.5, 10 at 0.8) and two sells (6 at 2, 4 at 0.25): records
   * of 6, 2.4 and -2.2, one remaining lot of 4 at 0.8, realized PnL 6.2 and
   * unrealized PnL 4.8 at a price of 2.
   */
  lemma TwoBuysTwoSells()
    ensures var d := DeriveCostBasisData(Lots, [Sell1, Sell2]);
            && |d.gainLossEvents| == 3
            && d.gainLossEvents[0].amount == 6.0
            && d.gainLossEvents[1].amount == 2.4
            && d.gainLossEvents[2].amount == -2.2
            && d.remainingBuys == [BuyEvent("BTC", 123.0, 3.2, 4.0, 0.8)]
            && DeriveRealizedPnL(d.gainLossEvents) == 6.2
            && DeriveUnrealizedPnL(d.remainingBuys, 2.0) == 4.8
    ensures DeriveRemainingUnits(Lots, [Sell1, Sell2]) == 4.0
  {
    CostBasisDataExample();
    PnLExample();
  }

  /**
   * The same with a third buy (8 at 1.25) dated after both sells: it supplies
   * no cost basis, stays whole, and lifts unrealized PnL at a price of 2 to 10.8.
   */
  lemma TwoBuysTwoSellsThenBuy()
    ensures var d := DeriveCostBasisData(Lots3, [Sell1, Sell2]);
            && d.gainLossEvents == Records
            && d.remainingBuys == [BuyEvent("BTC", 123.0, 3.2, 4.0, 0.8), Buy3]
            && DeriveRealizedPnL(d.gainLossEvents) == 6.2
            && DeriveUnrealizedPnL(d.remainingBuys, 2.0) == 10.8
    ensures DeriveRemainingUnits(Lots3, [Sell1, Sell2]) == 12.0
  {
    CostBasisDataExample();
    PnLExample();
  }

  /** A sell of 4 at 0.25 with nothing bought before it. */
  const Early := SellEvent("BTC", 10.0, 1.0, 4.0, 0.25)
  const LateBuy := BuyEvent("BTC", 20.0, 2.0, 2.0, 1.0)
  const ZeroBasis := GainLoss(1.0, Short, 10.0, 0.0, 4.0, 0.0, 0.25)

  lemma NoLotsWalk()
    ensures SettleSell([], [], Early) == Settlement([], [ZeroCostBasis(Early, 4.0)], 4.0)
    ensures SettleSell([LateBuy], [2.0], Early) == Settlement([2.0], [ZeroCostBasis(Early, 4.0)], 4.0)
  {
    assert WalkLots([LateBuy], [2.0], Early, 1, 4.0) == Walk([2.0], [], 4.0);
  }

  lemma NoLotsSorted()
    ensures SortedLots([]) == [] && Counters([]) == []
    ensures SortedLots([LateBuy]) == [LateBuy] && Counters([LateBuy]) == [2.0]
    ensures Sorting.SortBy([Early], SellDate) == [Early]
  {
  }

  lemma NoLotsSettle()
    ensures SettleSells([], [], [Early], false) == Success(Ledger([], [ZeroCostBasis(Early, 4.0)], 0.0))
    ensures SettleSells([LateBuy], [2.0], [Early], false) == Success(Ledger([2.0], [ZeroCostBasis(Early, 4.0)], 0.0))
    ensures SettleSells([], [], [Early], true) == Failure(UnknownCostBasis("BTC", 0.0))
    ensures SettleSells([LateBuy], [2.0], [Early], true) == Failure(UnknownCostBasis("BTC", 0.0))
  {
    NoLotsWalk();
    assert [Early][1..] == [];
    assert [ZeroCostBasis(Early, 4.0)] + [] == [ZeroCostBasis(Early, 4.0)];
  }

  /**
   * A sell with no earlier buy is booked whole at zero cost basis (buy date
   * and buy price 0) in the default mode, and throws in strict mode; a buy
   * dated after the sell is neither drawn on nor cut. The thrown error, as
   * written, reports 0 unknown units.
   */
  lemma SellBeforeAnyBuy()
    ensures DeriveCostBasis([], [Early], false) == Success(CostBasisData([ZeroBasis], []))
    ensures DeriveCostBasis([LateBuy], [Early], false) == Success(CostBasisData([ZeroBasis], [LateBuy]))
    ensures DeriveCostBasis([], [Early], true) == Failure(UnknownCostBasis("BTC", 0.0))
    ensures DeriveCostBasis([LateBuy], [Early], true) == Failure(UnknownCostBasis("BTC", 0.0))
  {
    NoLotsSorted();
    NoLotsSettle();
    assert GainLosses([], [ZeroCostBasis(Early, 4.0)]) == [ZeroBasis];
    assert GainLosses([LateBuy], [ZeroCostBasis(Early, 4.0)]) == [ZeroBasis];
    assert RemainingBuys([LateBuy], [2.0]) == [Shrink(LateBuy, 2.0)];
  }

  /** The corrected error for the same sell reports the 4 units it could not match. */
  lemma SellBeforeAnyBuyIntendedError()
    ensures UnknownCostBasisError(Early, SettleSell([], [], Early).leftover) == UnknownCostBasis("BTC", 4.0)
  {
    NoLotsWalk();
  }

  /** Two lots and a sell on the same date; the sell takes exactly the first lot. */
  const EthA := BuyEvent("ETH", 5.0, 2.0, 2.0, 1.0)
  const EthB := BuyEvent("ETH", 5.0, 6.0, 3.0, 2.0)
  const EthSell := SellEvent("ETH", 5.0, 10.0, 2.0, 5.0)

  lemma ExactMatchWalk()
    ensures SettleSell([EthA, EthB], [2.0, 3.0], EthSell)
            == Settlement([0.0, 3.0], [FromLot(EthSell, 0, 2.0), FromLot(EthSell, 1, 0.0)], 0.0)
  {
    assert [2.0, 3.0][0 := 0.0] == [0.0, 3.0];
    assert [0.0, 3.0][1 := 3.0] == [0.0, 3.0];
    assert WalkLots([EthA, EthB], [0.0, 3.0], EthSell, 1, 0.0) == Walk([0.0, 3.0], [FromLot(EthSell, 1, 0.0)], 0.0);
  }

  const EthMatches := [FromLot(EthSell, 0, 2.0), FromLot(EthSell, 1, 0.0)]

  lemma EthSorted()
    ensures SortedLots([EthA, EthB]) == [EthA, EthB] && Counters([EthA, EthB]) == [2.0, 3.0]
    ensures Sorting.SortBy([EthSell], SellDate) == [EthSell]
  {
    assert Sorting.SortedBy([EthA, EthB], BuyDate);
    Sorting.SortBySortedIsIdentity([EthA, EthB], BuyDate);
  }

  lemma ExactMatchSettle()
    ensures SettleSells([EthA, EthB], [2.0, 3.0], [EthSell], false) == Success(Ledger([0.0, 3.0], EthMatches, 0.0))
  {
    ExactMatchWalk();
    assert [EthSell][1..] == [];
    assert EthMatches + [] == EthMatches;
  }

  lemma ExactMatchAllocate()
    ensures Allocate([EthA, EthB], [EthSell], false) == Success(Ledger([0.0, 3.0], EthMatches, 0.0))
  {
    EthSorted();
    ExactMatchSettle();
  }

  lemma ExactMatchRemaining()
    ensures RemainingBuys([EthA, EthB], [0.0, 3.0]) == [EthB]
    ensures GainLosses([EthA, EthB], EthMatches)
            == [GainLoss(8.0, Short, 5.0, 5.0, 2.0, 1.0, 5.0), GainLoss(0.0, Short, 5.0, 5.0, 0.0, 2.0, 5.0)]
  {
    assert RemainingBuys([EthB], [3.0]) == [Shrink(EthB, 3.0)];
    assert [EthA, EthB][1..] == [EthB] && [0.0, 3.0][1..] == [3.0];
  }

  /**
   * Buys and sells on equal dates match (only a strictly later buy is skipped).
   * A sell that empties a lot exactly goes on to the next lot with nothing
   * left to match, which yields a second, zero-unit record; the untouched lot
   * remains whole.
   */
  lemma ExactMatchRecordsZeroUnits()
    ensures DeriveCostBasisData([EthA, EthB], [EthSell])
            == CostBasisData([GainLoss(8.0, Short, 5.0, 5.0, 2.0, 1.0, 5.0), GainLoss(0.0, Short, 5.0, 5.0, 0.0, 2.0, 5.0)], [EthB])
  {
    EthSorted();
    ExactMatchAllocate();
    ExactMatchRemaining();
  }

  /** One unit held, a sell of 1.00000005: the sub-`Epsilon` excess vanishes with no record. */
  const Unit := BuyEvent("BTC", 1.0, 1.0, 1.0, 1.0)
  const Over := SellEvent("BTC", 2.0, 2.1, 1.00000005, 2.1)

  lemma DustDropped()
    ensures SettleSell([Unit], [1.0], Over) == Settlement([0.0], [FromLot(Over, 0, 1.0)], 0.00000005)
    ensures SettleSells([Unit], [1.0], [Over], true) == Success(Ledger([0.0], [FromLot(Over, 0, 1.0)], 0.00000005))
  {
    assert [1.0][0 := 0.0] == [0.0];
    assert WalkLots([Unit], [0.0], Over, 1, 0.00000005) == Walk([0.0], [], 0.00000005);
    assert [Over][1..] == [];
    assert [FromLot(Over, 0, 1.0)] + [] == [FromLot(Over, 0, 1.0)];
  }

  const FiveTrades := [Buy(Buy1), Buy(Buy2), Sell(Sell1), Sell(Sell2), Buy(Buy3)]

  lemma SplitPrefixes()
    ensures SplitTrades("BTC", FiveTrades[..2]) == Asset(Lots, [], "BTC")
    ensures SplitTrades("BTC", FiveTrades[..3]) == Asset(Lots, [Sell1], "BTC")
  {
    var ts := FiveTrades;
    assert ts[..2][..1] == ts[..1] == [Buy(Buy1)];
    assert [Buy(Buy1)][..0] == [];
    assert SplitTrades("BTC", ts[..1]) == Asset([Buy1], [], "BTC");
    assert ts[..3][..2] == ts[..2];
  }

  /** The test suite's five trades split into the three buys and the two sells, each in input order. */
  lemma SplitExample()
    ensures SplitTrades("BTC", FiveTrades[..4]) == Asset(Lots, [Sell1, Sell2], "BTC")
    ensures SplitTrades("BTC", FiveTrades) == Asset(Lots3, [Sell1, Sell2], "BTC")
  {
    var ts := FiveTrades;
    SplitPrefixes();
    assert ts[..4][..3] == ts[..3] && ts[..4][3] == Sell(Sell2);
    assert ts[..4] == ts[..5][..4] && ts[..5] == ts && ts[4] == Buy(Buy3);
  }

  lemma NoSellsLedger()
    ensures Allocate([Buy1], [], false) == Success(Ledger([4.0], [], 0.0))
    ensures Allocate(Lots, [], false) == Success(Ledger([4.0, 10.0], [], 0.0))
  {
    LotsSorted();
    CountersExample();
    Sorting.SortBySortedIsIdentity([Buy1], BuyDate);
    assert SortedLots([Buy1]) == [Buy1];
    assert Counters([Buy1]) == [4.0];
    assert Sorting.SortBy([], SellDate) == [];
  }


  lemma NoSellsRemaining()
    ensures RemainingBuys([Buy1], [4.0]) == [Buy1]
    ensures RemainingBuys(Lots, [4.0, 10.0]) == Lots
  {
    assert Shrink(Buy1, 4.0) == Buy1 && Shrink(Buy2, 10.0) == Buy2;
    assert [Buy1][1..] == [] && [4.0][1..] == [];
    assert RemainingBuys([Buy2], [10.0]) == [Buy2] by {
      assert [Buy2][1..] == [] && [10.0][1..] == [];
    }
    assert Lots[1..] == [Buy2] && [4.0, 10.0][1..] == [10.0];
  }

  lemma OneBuyData()
    ensures DeriveCostBasisData([Buy1], []) == CostBasisData([], [Buy1])
  {
    NoSellsLedger();
    NoSellsRemaining();
    Sorting.SortBySortedIsIdentity([Buy1], BuyDate);
    assert SortedLots([Buy1]) == [Buy1];
    var r := DeriveCostBasis([Buy1], [], false);
    assert r.value.gainLossEvents == GainLosses([Buy1], []) == [];
    assert r.value.remainingBuys == RemainingBuys([Buy1], [4.0]);
  }

  lemma TwoBuysData()
    ensures DeriveCostBasisData(Lots, []) == CostBasisData([], Lots)
  {
    NoSellsLedger();
    NoSellsRemaining();
    LotsSorted();
    var r := DeriveCostBasis(Lots, [], false);
    assert r.value.gainLossEvents == GainLosses(Lots, []) == [];
    assert r.value.remainingBuys == RemainingBuys(Lots, [4.0, 10.0]);
  }

  /** With buys only there are no records and every lot remains whole. */
  lemma BuysOnlyExample()
    ensures DeriveCostBasisData([Buy1], []) == CostBasisData([], [Buy1])
    ensures DeriveCostBasisData(Lots, []) == CostBasisData([], Lots)
  {
    OneBuyData();
    TwoBuysData();
  }

  /** With buys only the holding is the units bought: 4, then 14. */
  lemma BuysOnlyUnits()
    ensures DeriveRemainingUnits([Buy1], []) == 4.0
    ensures DeriveRemainingUnits(Lots, []) == 14.0
  {
    assert Lots[1..] == [Buy2];
    assert Sums.Sum([Buy2], UnitsBought) == 10.0;
  }

  lemma OneSellSettle()
    ensures SettleSells(Lots, [4.0, 10.0], [Sell1], false)
            == Success(Ledger([0.0, 8.0], [FromLot(Sell1, 0, 4.0), FromLot(Sell1, 1, 2.0)], 0.0))
  {
    FirstSellExample();
    assert [Sell1][1..] == [];
    var ms := [FromLot(Sell1, 0, 4.0), FromLot(Sell1, 1, 2.0)];
    assert SettleSells(Lots, [0.0, 8.0], [], false) == Success(Ledger([0.0, 8.0], [], 0.0));
    assert ms + [] == ms;
  }

  lemma OneSellLedger()
    ensures Allocate(Lots, [Sell1], false) == Success(Ledger([0.0, 8.0], [FromLot(Sell1, 0, 4.0), FromLot(Sell1, 1, 2.0)], 0.0))
  {
    LotsSorted();
    CountersExample();
    OneSellSettle();
    Sorting.SortBySortedIsIdentity([Sell1], SellDate);
  }


  /** Two buys and one sell of 6 at 2: records of 6 (4 units from the first lot) and 2.4 (2 units from the second). */
  lemma OneSellExample()
    ensures var d := DeriveCostBasisData(Lots, [Sell1]);
            && d.gainLossEvents == Records[..2]
            && d.gainLossEvents[0].amount == 6.0 && d.gainLossEvents[1].amount == 2.4
  {
    OneSellLedger();
    LotsSorted();
    var ms := [FromLot(Sell1, 0, 4.0), FromLot(Sell1, 1, 2.0)];
    assert GainLosses(Lots, ms) == Records[..2];
    assert DeriveCostBasis(Lots, [Sell1], false).value.gainLossEvents == Records[..2];
  }

  /** After that sell 8 units are held. */
  lemma OneSellUnits()
    ensures DeriveRemainingUnits(Lots, [Sell1]) == 8.0
  {
    assert Lots[1..] == [Buy2];
    assert Sums.Sum([Buy2], UnitsBought) == 10.0;
    assert [Sell1][1..] == [];
    assert Sums.Sum([Sell1], UnitsSold) == 6.0;
  }
}
