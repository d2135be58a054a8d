/**
 * The FIFO cost-basis allocator and the position helpers built on it.
 *
 * Buys are stably sorted by `buyDate` into lots and sells by `sellDate`; a
 * sequence of remaining-unit counters, aligned by index with the sorted lots,
 * plays the part of the source's identity-keyed map. Every sell walks the lots
 * in order and is recorded as a list of `Match`es, each saying which lot (or
 * no lot) supplied how many units; gain/loss records are read off the matches.
 */
module CostBasis {
  import opened Wrappers
  import opened Sums
  import opened Sorting
  import opened Events

  /** An unmatched part of a sell at or below this is dropped as floating-point residue. */
  const Epsilon: real := 0.0000001

  function BuyDate(b: BuyEvent): real { b.buyDate }
  function SellDate(s: SellEvent): real { s.sellDate }
  function UnitsBought(b: BuyEvent): real { b.unitsBought }
  function UnitsSold(s: SellEvent): real { s.unitsSold }
  function BuyAmount(b: BuyEvent): real { b.amount }
  function GainLossAmount(g: GainLoss): real { g.amount }

  /** Where some units of `sell` got their cost basis: lot `lot` of the sorted buys, or no lot at all. */
  datatype Match = FromLot(sell: SellEvent, lot: nat, units: real) | ZeroCostBasis(sell: SellEvent, units: real)

  function MatchUnits(m: Match): real { m.units }
  function MatchSellDate(m: Match): real { m.sell.sellDate }

  /** Units of `ms` drawn from lot `j`. */
  function Drawn(ms: seq<Match>, j: nat): real
    decreases |ms|
  {
    if |ms| == 0 then 0.0
    else (if ms[0].FromLot? && ms[0].lot == j then ms[0].units else 0.0) + Drawn(ms[1..], j)
  }

  /** Units of `ms` drawn from any lot. */
  function LotUnits(m: Match): real { if m.FromLot? then m.units else 0.0 }

  /** Units of `ms` booked at zero cost basis. */
  function ZeroBasisUnits(m: Match): real { if m.ZeroCostBasis? then m.units else 0.0 }

  /** Every lot index a match names is a lot. */
  predicate LotsValid(ms: seq<Match>, lotCount: nat) {
    forall k :: 0 <= k < |ms| ==> ms[k].FromLot? ==> ms[k].lot < lotCount
  }

  /** The state after one sell has walked the lots: new counters, its matches, and its still-unmatched units. */
  datatype Walk = Walk(remaining: seq<real>, matches: seq<Match>, leftover: real)

  /**
   * The inner `for` loop of the allocator, from lot `i` on, with `need` units
   * of `sell` still unmatched. Exhausted lots and lots bought after the sale
   * are skipped; a lot holding more than `need` is partially consumed and the
   * walk stops; any other lot is emptied and the walk goes on.
   */
  function WalkLots(lots: seq<BuyEvent>, remaining: seq<real>, sell: SellEvent, i: nat, need: real): (w: Walk)
    requires |remaining| == |lots| && i <= |lots|
    ensures |w.remaining| == |lots|
    ensures forall j :: 0 <= j < i ==> w.remaining[j] == remaining[j]
    ensures forall k :: 0 <= k < |w.matches| ==>
              w.matches[k].FromLot? && w.matches[k].sell == sell && i <= w.matches[k].lot < |lots|
    decreases |lots| - i
  {
    if i == |lots| then Walk(remaining, [], need)
    else if remaining[i] == 0.0 then WalkLots(lots, remaining, sell, i + 1, need)
    else if lots[i].buyDate > sell.sellDate then WalkLots(lots, remaining, sell, i + 1, need)
    else if remaining[i] > need then
      Walk(remaining[i := remaining[i] - need], [FromLot(sell, i, need)], 0.0)
    else
      var rest := WalkLots(lots, remaining[i := 0.0], sell, i + 1, need - remaining[i]);
      Walk(rest.remaining, [FromLot(sell, i, remaining[i])] + rest.matches, rest.leftover)
  }

  /** One sell after its walk: a leftover above `Epsilon` becomes a zero-cost-basis match. */
  datatype Settlement = Settlement(remaining: seq<real>, matches: seq<Match>, leftover: real)
  {
    /** The leftover booked at zero cost basis. */
    predicate Unknown() { leftover > Epsilon }

    /** The leftover dropped with no record at all. */
    function Dropped(): real { if Unknown() then 0.0 else leftover }
  }

  /** The body of the allocator's `sortedSellsFIFO.forEach` for one sell. */
  function SettleSell(lots: seq<BuyEvent>, remaining: seq<real>, sell: SellEvent): (s: Settlement)
    requires |remaining| == |lots|
    ensures |s.remaining| == |lots|
    ensures LotsValid(s.matches, |lots|)
    ensures forall k :: 0 <= k < |s.matches| ==> s.matches[k].sell == sell
  {
    var w := WalkLots(lots, remaining, sell, 0, sell.unitsSold);
    if w.leftover > Epsilon then Settlement(w.remaining, w.matches + [ZeroCostBasis(sell, w.leftover)], w.leftover)
    else Settlement(w.remaining, w.matches, w.leftover)
  }

  lemma {:induction false} DrawnConcat(a: seq<Match>, b: seq<Match>, j: nat)
    ensures Drawn(a + b, j) == Drawn(a, j) + Drawn(b, j)
    decreases |a|
  {
    if |a| == 0 {
      assert a + b == b;
    } else {
      assert (a + b)[1..] == a[1..] + b;
      DrawnConcat(a[1..], b, j);
    }
  }

  lemma {:induction false} DrawnElsewhere(ms: seq<Match>, j: nat)
    requires forall k :: 0 <= k < |ms| ==> ms[k].FromLot? ==> ms[k].lot != j
    ensures Drawn(ms, j) == 0.0
    decreases |ms|
  {
    if |ms| > 0 {
      DrawnElsewhere(ms[1..], j);
    }
  }

  /** Causality and order: every match draws from an eligible, not yet exhausted lot, each lot at most once, in lot order. */
  ghost predicate DrawsEligibleLots(lots: seq<BuyEvent>, remaining: seq<real>, sell: SellEvent, w: Walk)
    requires |remaining| == |lots| && LotsValid(w.matches, |lots|)
  {
    && (forall k :: 0 <= k < |w.matches| ==>
          && w.matches[k].FromLot?
          && lots[w.matches[k].lot].buyDate <= sell.sellDate
          && remaining[w.matches[k].lot] != 0.0)
    && (forall k1, k2 :: 0 <= k1 < k2 < |w.matches| ==> w.matches[k1].lot < w.matches[k2].lot)
  }

  lemma {:induction false} WalkDrawsEligibleLots(lots: seq<BuyEvent>, remaining: seq<real>, sell: SellEvent, i: nat, need: real)
    requires |remaining| == |lots| && i <= |lots|
    ensures DrawsEligibleLots(lots, remaining, sell, WalkLots(lots, remaining, sell, i, need))
    decreases |lots| - i
  {
    if i == |lots| {
    } else if remaining[i] == 0.0 || lots[i].buyDate > sell.sellDate {
      WalkDrawsEligibleLots(lots, remaining, sell, i + 1, need);
    } else if remaining[i] > need {
    } else {
      var remaining' := remaining[i := 0.0];
      WalkDrawsEligibleLots(lots, remaining', sell, i + 1, need - remaining[i]);
      var rest := WalkLots(lots, remaining', sell, i + 1, need - remaining[i]);
      DrawsEligiblePrepend(lots, remaining, sell, i, rest);
    }
  }

  /** Drawing lot `i` (eligible and not exhausted) in front of a walk over the later lots keeps the draws eligible and in lot order. */
  lemma DrawsEligiblePrepend(lots: seq<BuyEvent>, remaining: seq<real>, sell: SellEvent, i: nat, rest: Walk)
    requires |remaining| == |lots| && i < |lots|
    requires remaining[i] != 0.0 && lots[i].buyDate <= sell.sellDate
    requires forall k :: 0 <= k < |rest.matches| ==> rest.matches[k].FromLot? && i < rest.matches[k].lot < |lots|
    requires DrawsEligibleLots(lots, remaining[i := 0.0], sell, rest)
    ensures LotsValid([FromLot(sell, i, remaining[i])] + rest.matches, |lots|)
    ensures DrawsEligibleLots(lots, remaining, sell, Walk(rest.remaining, [FromLot(sell, i, remaining[i])] + rest.matches, rest.leftover))
  {
    var ms := [FromLot(sell, i, remaining[i])] + rest.matches;
    assert forall k :: 1 <= k < |ms| ==> ms[k] == rest.matches[k - 1];
    forall k | 1 <= k < |ms|
      ensures remaining[ms[k].lot] != 0.0
    {
      assert remaining[i := 0.0][ms[k].lot] == remaining[ms[k].lot];
    }
  }

  /** Per-lot conservation: each counter dropped by exactly the units drawn from its lot. */
  ghost predicate ConservesLots(remaining: seq<real>, after: seq<real>, ms: seq<Match>)
    requires |after| == |remaining|
  {
    forall j :: 0 <= j < |remaining| ==> remaining[j] == after[j] + Drawn(ms, j)
  }

  lemma {:induction false} WalkConserves(lots: seq<BuyEvent>, remaining: seq<real>, sell: SellEvent, i: nat, need: real)
    requires |remaining| == |lots| && i <= |lots|
    ensures var w := WalkLots(lots, remaining, sell, i, need); ConservesLots(remaining, w.remaining, w.matches)
    decreases |lots| - i
  {
    if i == |lots| {
    } else if remaining[i] == 0.0 || lots[i].buyDate > sell.sellDate {
      WalkConserves(lots, remaining, sell, i + 1, need);
    } else if remaining[i] > need {
    } else {
      var remaining' := remaining[i := 0.0];
      var rest := WalkLots(lots, remaining', sell, i + 1, need - remaining[i]);
      WalkConserves(lots, remaining', sell, i + 1, need - remaining[i]);
      var ms := [FromLot(sell, i, remaining[i])] + rest.matches;
      assert ms[1..] == rest.matches;
      forall j | 0 <= j < |lots|
        ensures remaining[j] == rest.remaining[j] + Drawn(ms, j)
      {
        assert remaining'[j] == rest.remaining[j] + Drawn(rest.matches, j);
        if j == i {
          DrawnElsewhere(rest.matches, i);
        }
      }
    }
  }

  /** Per-sell coverage of one walk, and the total of the counters: nothing is created or lost. */
  lemma {:induction false} WalkCovers(lots: seq<BuyEvent>, remaining: seq<real>, sell: SellEvent, i: nat, need: real)
    requires |remaining| == |lots| && i <= |lots|
    ensures Sum(WalkLots(lots, remaining, sell, i, need).matches, MatchUnits) + WalkLots(lots, remaining, sell, i, need).leftover == need
    ensures Total(WalkLots(lots, remaining, sell, i, need).remaining) + Sum(WalkLots(lots, remaining, sell, i, need).matches, MatchUnits) == Total(remaining)
    decreases |lots| - i
  {
    if i == |lots| {
    } else if remaining[i] == 0.0 || lots[i].buyDate > sell.sellDate {
      WalkCovers(lots, remaining, sell, i + 1, need);
    } else if remaining[i] > need {
      TotalUpdate(remaining, i, remaining[i] - need);
    } else {
      WalkCovers(lots, remaining[i := 0.0], sell, i + 1, need - remaining[i]);
      TotalUpdate(remaining, i, 0.0);
      var rest := WalkLots(lots, remaining[i := 0.0], sell, i + 1, need - remaining[i]);
      assert ([FromLot(sell, i, remaining[i])] + rest.matches)[1..] == rest.matches;
    }
  }

  /** Counters within `[0, start]`, non-negative units on every match, and a non-negative unmatched amount. */
  ghost predicate WithinBounds(remaining: seq<real>, w: Walk)
    requires |w.remaining| == |remaining|
  {
    && w.leftover >= 0.0
    && (forall j :: 0 <= j < |remaining| ==> 0.0 <= w.remaining[j] <= remaining[j])
    && (forall k :: 0 <= k < |w.matches| ==> w.matches[k].units >= 0.0)
  }

  ghost predicate NonNegative(xs: seq<real>) {
    forall j :: 0 <= j < |xs| ==> xs[j] >= 0.0
  }

  lemma {:induction false} WalkBounds(lots: seq<BuyEvent>, remaining: seq<real>, sell: SellEvent, i: nat, need: real)
    requires |remaining| == |lots| && i <= |lots|
    requires need >= 0.0 && NonNegative(remaining)
    ensures WithinBounds(remaining, WalkLots(lots, remaining, sell, i, need))
    decreases |lots| - i
  {
    if i == |lots| {
    } else if remaining[i] == 0.0 || lots[i].buyDate > sell.sellDate {
      WalkBounds(lots, remaining, sell, i + 1, need);
    } else if remaining[i] > need {
    } else {
      WalkBounds(lots, remaining[i := 0.0], sell, i + 1, need - remaining[i]);
    }
  }

  /**
   * How a walk leaves a lot: untouched, emptied, or — only for the last lot
   * drawn, and only once the sell is fully matched — cut to a strictly positive remainder.
   */
  ghost predicate LeavesLots(remaining: seq<real>, w: Walk)
    requires |w.remaining| == |remaining|
  {
    forall j :: 0 <= j < |remaining| ==>
      || w.remaining[j] == remaining[j]
      || w.remaining[j] == 0.0
      || (&& w.remaining[j] > 0.0 && w.leftover == 0.0
          && |w.matches| > 0 && w.matches[|w.matches| - 1].FromLot? && w.matches[|w.matches| - 1].lot == j)
  }

  lemma {:induction false} WalkLeavesLots(lots: seq<BuyEvent>, remaining: seq<real>, sell: SellEvent, i: nat, need: real)
    requires |remaining| == |lots| && i <= |lots|
    ensures LeavesLots(remaining, WalkLots(lots, remaining, sell, i, need))
    decreases |lots| - i
  {
    if i == |lots| {
    } else if remaining[i] == 0.0 || lots[i].buyDate > sell.sellDate {
      WalkLeavesLots(lots, remaining, sell, i + 1, need);
    } else if remaining[i] > need {
    } else {
      WalkLeavesLots(lots, remaining[i := 0.0], sell, i + 1, need - remaining[i]);
    }
  }

  /**
   * FIFO from lot `i` on: a lot is drawn from only once every earlier eligible
   * lot is empty, and units stay unmatched only once every eligible lot is empty.
   */
  ghost predicate Fifo(lots: seq<BuyEvent>, sell: SellEvent, i: nat, w: Walk)
    requires |w.remaining| == |lots| && LotsValid(w.matches, |lots|)
  {
    && (forall k, j ::
          (0 <= k < |w.matches| && w.matches[k].FromLot? && i <= j < w.matches[k].lot && lots[j].buyDate <= sell.sellDate)
          ==> w.remaining[j] == 0.0)
    && (w.leftover != 0.0 ==> forall j :: i <= j < |lots| && lots[j].buyDate <= sell.sellDate ==> w.remaining[j] == 0.0)
  }

  lemma {:induction false} WalkIsFifo(lots: seq<BuyEvent>, remaining: seq<real>, sell: SellEvent, i: nat, need: real)
    requires |remaining| == |lots| && i <= |lots|
    ensures Fifo(lots, sell, i, WalkLots(lots, remaining, sell, i, need))
    decreases |lots| - i
  {
    if i == |lots| {
    } else if remaining[i] == 0.0 || lots[i].buyDate > sell.sellDate {
      WalkIsFifo(lots, remaining, sell, i + 1, need);
    } else if remaining[i] > need {
    } else {
      WalkIsFifo(lots, remaining[i := 0.0], sell, i + 1, need - remaining[i]);
      var rest := WalkLots(lots, remaining[i := 0.0], sell, i + 1, need - remaining[i]);
      var ms := [FromLot(sell, i, remaining[i])] + rest.matches;
      assert forall k :: 1 <= k < |ms| ==> ms[k] == rest.matches[k - 1];
    }
  }

  /** Every match counts its units either against a lot or at zero cost basis. */
  lemma MatchUnitsSplit(ms: seq<Match>)
    ensures Sum(ms, MatchUnits) == Sum(ms, LotUnits) + Sum(ms, ZeroBasisUnits)
  {
    SumSplit(ms, LotUnits, ZeroBasisUnits, MatchUnits);
  }

  /**
   * Per-sell coverage: the units of a sell's matches plus the residue dropped
   * below `Epsilon` are the units sold; lot counters lose exactly the units
   * drawn from lots, and only an above-`Epsilon` leftover is booked at zero cost basis.
   */
  lemma SettleCovers(lots: seq<BuyEvent>, remaining: seq<real>, sell: SellEvent)
    requires |remaining| == |lots|
    ensures var s := SettleSell(lots, remaining, sell);
            && Sum(s.matches, MatchUnits) + s.Dropped() == sell.unitsSold
            && Total(s.remaining) + Sum(s.matches, LotUnits) == Total(remaining)
            && Sum(s.matches, ZeroBasisUnits) == (if s.Unknown() then s.leftover else 0.0)
  {
    var w := WalkLots(lots, remaining, sell, 0, sell.unitsSold);
    WalkCovers(lots, remaining, sell, 0, sell.unitsSold);
    SumEqual(w.matches, LotUnits, MatchUnits);
    MatchUnitsSplit(w.matches);
    if w.leftover > Epsilon {
      var z := [ZeroCostBasis(sell, w.leftover)];
      SumConcat(w.matches, z, MatchUnits);
      SumConcat(w.matches, z, LotUnits);
      SumConcat(w.matches, z, ZeroBasisUnits);
    }
  }

  /** Per-lot conservation for one sell. */
  lemma SettleConserves(lots: seq<BuyEvent>, remaining: seq<real>, sell: SellEvent)
    requires |remaining| == |lots|
    ensures var s := SettleSell(lots, remaining, sell); ConservesLots(remaining, s.remaining, s.matches)
  {
    var w := WalkLots(lots, remaining, sell, 0, sell.unitsSold);
    WalkConserves(lots, remaining, sell, 0, sell.unitsSold);
    if w.leftover > Epsilon {
      forall j | 0 <= j < |lots|
        ensures Drawn(w.matches + [ZeroCostBasis(sell, w.leftover)], j) == Drawn(w.matches, j)
      {
        DrawnConcat(w.matches, [ZeroCostBasis(sell, w.leftover)], j);
      }
    }
  }

  /** Bounds for one sell over non-negative quantities; the dropped residue lies in `[0, Epsilon]`. */
  lemma SettleBounds(lots: seq<BuyEvent>, remaining: seq<real>, sell: SellEvent)
    requires |remaining| == |lots|
    requires sell.unitsSold >= 0.0 && NonNegative(remaining)
    ensures var s := SettleSell(lots, remaining, sell);
            && (forall j :: 0 <= j < |lots| ==> 0.0 <= s.remaining[j] <= remaining[j])
            && (forall k :: 0 <= k < |s.matches| ==> s.matches[k].units >= 0.0)
            && 0.0 <= s.Dropped() <= Epsilon
  {
    WalkBounds(lots, remaining, sell, 0, sell.unitsSold);
  }

  ghost predicate WithinSellOrder(lots: seq<BuyEvent>, sell: SellEvent, s: Settlement)
    requires LotsValid(s.matches, |lots|)
  {
    && (forall k1, k2 :: 0 <= k1 < k2 < |s.matches| && s.matches[k2].FromLot? ==>
          s.matches[k1].FromLot? && s.matches[k1].lot < s.matches[k2].lot
          && lots[s.matches[k1].lot].buyDate <= lots[s.matches[k2].lot].buyDate)
    && (forall k :: 0 <= k < |s.matches| && s.matches[k].FromLot? ==> lots[s.matches[k].lot].buyDate <= sell.sellDate)
    && (forall k :: 0 <= k < |s.matches| && s.matches[k].ZeroCostBasis? ==> k == |s.matches| - 1 && s.Unknown())
  }

  /**
   * Order within one sell: lot matches in ascending `buyDate` when the lots are
   * sorted, each from a lot dated no later than the sale, and a zero-cost-basis
   * match only last.
   */
  lemma SettleOrder(lots: seq<BuyEvent>, remaining: seq<real>, sell: SellEvent)
    requires |remaining| == |lots|
    requires SortedBy(lots, BuyDate)
    ensures WithinSellOrder(lots, sell, SettleSell(lots, remaining, sell))
  {
    var w := WalkLots(lots, remaining, sell, 0, sell.unitsSold);
    WalkDrawsEligibleLots(lots, remaining, sell, 0, sell.unitsSold);
    var s := SettleSell(lots, remaining, sell);
    assert forall k :: 0 <= k < |w.matches| ==> s.matches[k] == w.matches[k];
    forall k1, k2 | 0 <= k1 < k2 < |s.matches| && s.matches[k2].FromLot?
      ensures lots[s.matches[k1].lot].buyDate <= lots[s.matches[k2].lot].buyDate
    {
      assert BuyDate(lots[s.matches[k1].lot]) <= BuyDate(lots[s.matches[k2].lot]);
    }
  }

  /** The allocator after all sells: final lot counters, every match in order, and the total residue dropped. */
  datatype Ledger = Ledger(remaining: seq<real>, matches: seq<Match>, dropped: real)

  /** The error strict mode throws: the sell's asset symbol and its unmatched units. */
  datatype UnknownCostBasis = UnknownCostBasis(asset: string, unknownAmount: real)

  /** The strict-mode error as the source builds it: the amount is read after it has been reset to 0. */
  function UnknownCostBasisErrorAsWritten(sell: SellEvent, leftover: real): (e: UnknownCostBasis)
    ensures e.asset == sell.asset
  {
    UnknownCostBasis(sell.asset, 0.0)
  }

  /** The as-written error never reports the unmatched units it announces. */
  lemma AsWrittenErrorLosesLeftover(sell: SellEvent, leftover: real)
    requires leftover > Epsilon
    ensures UnknownCostBasisErrorAsWritten(sell, leftover).unknownAmount != leftover
  {
  }

  /** The strict-mode error carrying the units still unmatched when the sell ran out of lots. */
  function UnknownCostBasisError(sell: SellEvent, leftover: real): (e: UnknownCostBasis)
    requires leftover > Epsilon
    ensures e.asset == sell.asset && e.unknownAmount > Epsilon
  {
    UnknownCostBasis(sell.asset, leftover)
  }

  /**
   * The allocator's outer `forEach` over the sorted sells, threading the lot
   * counters; in strict mode the first sell with a leftover above `Epsilon` aborts.
   */
  function SettleSells(lots: seq<BuyEvent>, remaining: seq<real>, sells: seq<SellEvent>, strict: bool): (r: Result<Ledger, UnknownCostBasis>)
    requires |remaining| == |lots|
    ensures !strict ==> r.Success?
    ensures r.Success? ==> |r.value.remaining| == |lots| && LotsValid(r.value.matches, |lots|)
    decreases |sells|
  {
    if |sells| == 0 then Success(Ledger(remaining, [], 0.0))
    else
      var s := SettleSell(lots, remaining, sells[0]);
      if strict && s.Unknown() then Failure(UnknownCostBasisErrorAsWritten(sells[0], s.leftover))
      else
        match SettleSells(lots, s.remaining, sells[1..], strict)
        case Failure(e) => Failure(e)
        case Success(rest) =>
          var ms := s.matches + rest.matches;
          assert forall k :: |s.matches| <= k < |ms| ==> ms[k] == rest.matches[k - |s.matches|];
          Success(Ledger(rest.remaining, ms, s.Dropped() + rest.dropped))
  }

  /** Per-lot conservation across all sells: each lot's counter fell by exactly the units drawn from it. */
  lemma {:induction false} LedgerConserves(lots: seq<BuyEvent>, remaining: seq<real>, sells: seq<SellEvent>, strict: bool)
    requires |remaining| == |lots|
    ensures var r := SettleSells(lots, remaining, sells, strict);
            r.Success? ==> ConservesLots(remaining, r.value.remaining, r.value.matches)
    decreases |sells|
  {
    var r := SettleSells(lots, remaining, sells, strict);
    if |sells| > 0 && r.Success? {
      var s := SettleSell(lots, remaining, sells[0]);
      SettleConserves(lots, remaining, sells[0]);
      LedgerConserves(lots, s.remaining, sells[1..], strict);
      var rest := SettleSells(lots, s.remaining, sells[1..], strict).value;
      forall j | 0 <= j < |lots|
        ensures remaining[j] == rest.remaining[j] + Drawn(s.matches + rest.matches, j)
      {
        DrawnConcat(s.matches, rest.matches, j);
      }
    }
  }

  /**
   * Unit totals across all sells: the counters lost exactly the units drawn
   * from lots, and the matched units plus the dropped residue are the units sold.
   */
  lemma {:induction false} LedgerTotals(lots: seq<BuyEvent>, remaining: seq<real>, sells: seq<SellEvent>, strict: bool)
    requires |remaining| == |lots|
    ensures var r := SettleSells(lots, remaining, sells, strict);
            r.Success? ==>
              && Total(remaining) == Total(r.value.remaining) + Sum(r.value.matches, LotUnits)
              && Sum(r.value.matches, MatchUnits) + r.value.dropped == Sum(sells, UnitsSold)
    decreases |sells|
  {
    var r := SettleSells(lots, remaining, sells, strict);
    if |sells| > 0 && r.Success? {
      var s := SettleSell(lots, remaining, sells[0]);
      SettleCovers(lots, remaining, sells[0]);
      LedgerTotals(lots, s.remaining, sells[1..], strict);
      var rest := SettleSells(lots, s.remaining, sells[1..], strict).value;
      SumConcat(s.matches, rest.matches, LotUnits);
      SumConcat(s.matches, rest.matches, MatchUnits);
    }
  }

  /** Bounds across all sells over non-negative quantities. */
  lemma {:induction false} LedgerBounds(lots: seq<BuyEvent>, remaining: seq<real>, sells: seq<SellEvent>, strict: bool)
    requires |remaining| == |lots|
    requires NonNegative(remaining) && forall k :: 0 <= k < |sells| ==> sells[k].unitsSold >= 0.0
    ensures var r := SettleSells(lots, remaining, sells, strict);
            r.Success? ==>
              && (forall j :: 0 <= j < |lots| ==> 0.0 <= r.value.remaining[j] <= remaining[j])
              && (forall k :: 0 <= k < |r.value.matches| ==> r.value.matches[k].units >= 0.0)
              && 0.0 <= r.value.dropped <= Epsilon * |sells| as real
    decreases |sells|
  {
    var r := SettleSells(lots, remaining, sells, strict);
    if |sells| > 0 && r.Success? {
      var s := SettleSell(lots, remaining, sells[0]);
      SettleBounds(lots, remaining, sells[0]);
      LedgerBounds(lots, s.remaining, sells[1..], strict);
      var rest := SettleSells(lots, s.remaining, sells[1..], strict).value;
      var ms := s.matches + rest.matches;
      assert forall k :: |s.matches| <= k < |ms| ==> ms[k] == rest.matches[k - |s.matches|];
    }
  }

  /** Causality across all sells: every match belongs to one of the sells, and a lot match never draws on a lot bought after that sale. */
  lemma {:induction false} LedgerCausal(lots: seq<BuyEvent>, remaining: seq<real>, sells: seq<SellEvent>, strict: bool)
    requires |remaining| == |lots|
    ensures var r := SettleSells(lots, remaining, sells, strict);
            r.Success? ==> forall k :: 0 <= k < |r.value.matches| ==>
              && r.value.matches[k].sell in sells
              && (r.value.matches[k].FromLot? ==> lots[r.value.matches[k].lot].buyDate <= r.value.matches[k].sell.sellDate)
    decreases |sells|
  {
    var r := SettleSells(lots, remaining, sells, strict);
    if |sells| > 0 && r.Success? {
      var s := SettleSell(lots, remaining, sells[0]);
      var w := WalkLots(lots, remaining, sells[0], 0, sells[0].unitsSold);
      WalkDrawsEligibleLots(lots, remaining, sells[0], 0, sells[0].unitsSold);
      assert forall k :: 0 <= k < |w.matches| ==> s.matches[k] == w.matches[k];
      LedgerCausal(lots, s.remaining, sells[1..], strict);
      var rest := SettleSells(lots, s.remaining, sells[1..], strict).value;
      var ms := s.matches + rest.matches;
      forall k | |s.matches| <= k < |ms|
        ensures ms[k].sell in sells
      {
        assert ms[k] == rest.matches[k - |s.matches|];
        assert ms[k].sell in sells[1..];
      }
    }
  }

  /** Ordering across all sells: with the sells sorted by date, the matches come grouped by sell in ascending `sellDate`. */
  lemma {:induction false} LedgerOrdered(lots: seq<BuyEvent>, remaining: seq<real>, sells: seq<SellEvent>, strict: bool)
    requires |remaining| == |lots|
    requires SortedBy(sells, SellDate)
    ensures var r := SettleSells(lots, remaining, sells, strict);
            r.Success? ==> SortedBy(r.value.matches, MatchSellDate)
    decreases |sells|
  {
    var r := SettleSells(lots, remaining, sells, strict);
    if |sells| > 0 && r.Success? {
      var s := SettleSell(lots, remaining, sells[0]);
      LedgerOrdered(lots, s.remaining, sells[1..], strict);
      LedgerCausal(lots, s.remaining, sells[1..], strict);
      var rest := SettleSells(lots, s.remaining, sells[1..], strict).value;
      assert SortedBy(s.matches, MatchSellDate) by {
        assert forall k :: 0 <= k < |s.matches| ==> MatchSellDate(s.matches[k]) == sells[0].sellDate;
      }
      forall k1, k2 | 0 <= k1 < |s.matches| && 0 <= k2 < |rest.matches|
        ensures MatchSellDate(s.matches[k1]) <= MatchSellDate(rest.matches[k2])
      {
        var i :| 0 <= i < |sells[1..]| && sells[1..][i] == rest.matches[k2].sell;
        assert SellDate(sells[0]) <= SellDate(sells[i + 1]);
      }
      SortedConcat(s.matches, rest.matches, MatchSellDate);
    }
  }

  /**
   * The settlements of the outer loop, one per sell, each starting from the
   * counters the previous one left: the run the default mode completes and
   * strict mode follows until it throws.
   */
  function Settlements(lots: seq<BuyEvent>, remaining: seq<real>, sells: seq<SellEvent>): (ss: seq<Settlement>)
    requires |remaining| == |lots|
    ensures |ss| == |sells|
    ensures forall k :: 0 <= k < |ss| ==> |ss[k].remaining| == |lots| && LotsValid(ss[k].matches, |lots|)
    ensures forall k, j :: 0 <= k < |ss| && 0 <= j < |ss[k].matches| ==> ss[k].matches[j].sell == sells[k]
    decreases |sells|
  {
    if |sells| == 0 then []
    else
      var s := SettleSell(lots, remaining, sells[0]);
      [s] + Settlements(lots, s.remaining, sells[1..])
  }

  /** The matches of a run of settlements, block after block. */
  function MatchesOf(ss: seq<Settlement>): seq<Match> {
    if |ss| == 0 then [] else ss[0].matches + MatchesOf(ss[1..])
  }

  /** A successful run's matches are the settlements' blocks, one block per sell, in the order of the sells. */
  lemma {:induction false} LedgerBlocks(lots: seq<BuyEvent>, remaining: seq<real>, sells: seq<SellEvent>, strict: bool)
    requires |remaining| == |lots|
    ensures var r := SettleSells(lots, remaining, sells, strict);
            r.Success? ==> r.value.matches == MatchesOf(Settlements(lots, remaining, sells))
    decreases |sells|
  {
    var r := SettleSells(lots, remaining, sells, strict);
    if |sells| > 0 && r.Success? {
      var s := SettleSell(lots, remaining, sells[0]);
      var ss := Settlements(lots, remaining, sells);
      assert ss[0] == s && ss[1..] == Settlements(lots, s.remaining, sells[1..]);
      LedgerBlocks(lots, s.remaining, sells[1..], strict);
    }
  }

  /** Strict mode either throws or returns exactly what the default mode returns. */
  lemma {:induction false} StrictSuccessAgrees(lots: seq<BuyEvent>, remaining: seq<real>, sells: seq<SellEvent>)
    requires |remaining| == |lots|
    ensures SettleSells(lots, remaining, sells, true).Success? ==>
              SettleSells(lots, remaining, sells, true) == SettleSells(lots, remaining, sells, false)
    decreases |sells|
  {
    if |sells| > 0 && SettleSells(lots, remaining, sells, true).Success? {
      var s := SettleSell(lots, remaining, sells[0]);
      StrictSuccessAgrees(lots, s.remaining, sells[1..]);
    }
  }

  /** The index of the first settlement left with more than `Epsilon` unmatched units, or `|ss|` when there is none. */
  function FirstUnknown(ss: seq<Settlement>): (k: nat)
    ensures k <= |ss|
    ensures forall j :: 0 <= j < k ==> !ss[j].Unknown()
    ensures k < |ss| ==> ss[k].Unknown()
  {
    if |ss| == 0 then 0
    else if ss[0].Unknown() then 0
    else 1 + FirstUnknown(ss[1..])
  }

  /**
   * A run fails only in strict mode, and then exactly when some sell of the
   * threaded run is left with more than `Epsilon` unmatched units; it throws
   * at the first such sell, with that sell's asset and the as-written amount.
   */
  lemma {:induction false} StrictFailsAtFirstUnknown(lots: seq<BuyEvent>, remaining: seq<real>, sells: seq<SellEvent>, strict: bool)
    requires |remaining| == |lots|
    ensures var r := SettleSells(lots, remaining, sells, strict);
            var ss := Settlements(lots, remaining, sells);
            && (r.Failure? ==> strict)
            && (strict ==> (r.Failure? <==> FirstUnknown(ss) < |ss|))
            && (r.Failure? ==> FirstUnknown(ss) < |ss|
                               && r.error == UnknownCostBasisErrorAsWritten(sells[FirstUnknown(ss)], ss[FirstUnknown(ss)].leftover))
    decreases |sells|
  {
    if |sells| > 0 {
      var s := SettleSell(lots, remaining, sells[0]);
      var ss := Settlements(lots, remaining, sells);
      assert ss[0] == s && ss[1..] == Settlements(lots, s.remaining, sells[1..]);
      if !s.Unknown() {
        StrictFailsAtFirstUnknown(lots, s.remaining, sells[1..], strict);
        assert FirstUnknown(ss) == 1 + FirstUnknown(ss[1..]);
        if FirstUnknown(ss[1..]) < |ss[1..]| {
          assert sells[1..][FirstUnknown(ss[1..])] == sells[FirstUnknown(ss)];
          assert ss[1..][FirstUnknown(ss[1..])] == ss[FirstUnknown(ss)];
        }
      } else if !strict {
        StrictFailsAtFirstUnknown(lots, s.remaining, sells[1..], strict);
      }
    }
  }

  /** With sorted lots, every block of the threaded run is in FIFO order and ends with its zero-cost-basis record, if any. */
  lemma {:induction false} SettlementsOrdered(lots: seq<BuyEvent>, remaining: seq<real>, sells: seq<SellEvent>)
    requires |remaining| == |lots| && SortedBy(lots, BuyDate)
    ensures var ss := Settlements(lots, remaining, sells);
            forall k :: 0 <= k < |ss| ==> WithinSellOrder(lots, sells[k], ss[k])
    decreases |sells|
  {
    if |sells| > 0 {
      var s := SettleSell(lots, remaining, sells[0]);
      var ss := Settlements(lots, remaining, sells);
      assert ss[0] == s && ss[1..] == Settlements(lots, s.remaining, sells[1..]);
      SettleOrder(lots, remaining, sells[0]);
      SettlementsOrdered(lots, s.remaining, sells[1..]);
      forall k | 1 <= k < |ss|
        ensures WithinSellOrder(lots, sells[k], ss[k])
      {
        assert ss[k] == ss[1..][k - 1] && sells[k] == sells[1..][k - 1];
      }
    }
  }

  /** The lots: the buys stably sorted by `buyDate`. */
  function SortedLots(buys: seq<BuyEvent>): seq<BuyEvent> {
    SortBy(buys, BuyDate)
  }

  /** The counters before any sell: each lot's `unitsBought`. */
  function Counters(lots: seq<BuyEvent>): (c: seq<real>)
    ensures |c| == |lots| && forall j :: 0 <= j < |lots| ==> c[j] == lots[j].unitsBought
  {
    seq(|lots|, j requires 0 <= j < |lots| => lots[j].unitsBought)
  }

  /** The whole matching run: sort both sides, start every counter full, settle the sells in date order. */
  function Allocate(buys: seq<BuyEvent>, sells: seq<SellEvent>, strict: bool): (r: Result<Ledger, UnknownCostBasis>)
    ensures !strict ==> r.Success?
    ensures r.Success? ==> |r.value.remaining| == |buys| && LotsValid(r.value.matches, |buys|)
  {
    var lots := SortedLots(buys);
    SettleSells(lots, Counters(lots), SortBy(sells, SellDate), strict)
  }

  /** A record's amount is its units times the price difference; every record is a short-term one. */
  predicate RecordConsistent(g: GainLoss) {
    g.capGains == Short && g.amount == g.unitsSold * (g.sellUnitPrice - g.buyUnitPrice)
  }

  /** The gain/loss record of one match; a zero-cost-basis match has `buyDate` and `buyUnitPrice` 0. */
  function GainLossOf(lots: seq<BuyEvent>, m: Match): (g: GainLoss)
    requires m.FromLot? ==> m.lot < |lots|
    ensures RecordConsistent(g)
    ensures g.sellDate == m.sell.sellDate && g.sellUnitPrice == m.sell.unitPrice && g.unitsSold == m.units
    ensures m.FromLot? ==> g.buyDate == lots[m.lot].buyDate && g.buyUnitPrice == lots[m.lot].unitPrice
    ensures m.ZeroCostBasis? ==> g.buyDate == 0.0 && g.buyUnitPrice == 0.0 && g.amount == m.units * m.sell.unitPrice
  {
    match m
    case FromLot(sell, lot, units) =>
      GainLoss(units * (sell.unitPrice - lots[lot].unitPrice), Short, sell.sellDate, lots[lot].buyDate, units, lots[lot].unitPrice, sell.unitPrice)
    case ZeroCostBasis(sell, units) =>
      GainLoss(units * (sell.unitPrice - 0.0), Short, sell.sellDate, 0.0, units, 0.0, sell.unitPrice)
  }

  function GainLosses(lots: seq<BuyEvent>, ms: seq<Match>): (gs: seq<GainLoss>)
    requires LotsValid(ms, |lots|)
    ensures |gs| == |ms| && forall k :: 0 <= k < |ms| ==> gs[k] == GainLossOf(lots, ms[k])
  {
    seq(|ms|, k requires 0 <= k < |ms| => GainLossOf(lots, ms[k]))
  }

  /** A lot cut down to `units`, with its amount recomputed at the lot's unit price and every other field kept. */
  function Shrink(b: BuyEvent, units: real): BuyEvent {
    b.(unitsBought := units, amount := units * b.unitPrice)
  }

  /** The unconsumed lots, in lot order; a lot whose counter is exactly 0 is left out. */
  function RemainingBuys(lots: seq<BuyEvent>, remaining: seq<real>): (r: seq<BuyEvent>)
    requires |remaining| == |lots|
    ensures |r| <= |lots|
    ensures forall k :: 0 <= k < |r| ==> LotConsistent(r[k])
    ensures Sum(r, UnitsBought) == Total(remaining)
    decreases |lots|
  {
    if |lots| == 0 then []
    else
      var rest := RemainingBuys(lots[1..], remaining[1..]);
      var head := if remaining[0] == 0.0 then [] else [Shrink(lots[0], remaining[0])];
      SumConcat(head, rest, UnitsBought);
      head + rest
  }

  /** A remaining lot holds units and is valued at its own unit price. */
  predicate LotConsistent(b: BuyEvent) {
    b.unitsBought != 0.0 && b.amount == b.unitsBought * b.unitPrice
  }

  /** The unconsumed lots are exactly the lots with a non-zero counter, each cut down to that counter. */
  lemma {:induction false} RemainingBuysMembers(lots: seq<BuyEvent>, remaining: seq<real>)
    requires |remaining| == |lots|
    ensures forall b :: b in RemainingBuys(lots, remaining) <==>
              exists j :: 0 <= j < |lots| && remaining[j] != 0.0 && b == Shrink(lots[j], remaining[j])
    decreases |lots|
  {
    if |lots| > 0 {
      RemainingBuysMembers(lots[1..], remaining[1..]);
      assert forall j :: 1 <= j < |lots| ==> lots[j] == lots[1..][j - 1] && remaining[j] == remaining[1..][j - 1];
      forall b | (exists j :: 0 <= j < |lots| && remaining[j] != 0.0 && b == Shrink(lots[j], remaining[j]))
        ensures b in RemainingBuys(lots, remaining)
      {
        var j :| 0 <= j < |lots| && remaining[j] != 0.0 && b == Shrink(lots[j], remaining[j]);
        if j > 0 {
          assert lots[1..][j - 1] == lots[j];
        }
      }
    }
  }

  /** Every index moved one lot further. */
  function Shift(idx: seq<nat>): (r: seq<nat>)
    ensures |r| == |idx| && forall k :: 0 <= k < |idx| ==> r[k] == idx[k] + 1
  {
    seq(|idx|, k requires 0 <= k < |idx| => idx[k] + 1)
  }

  /** The indices of the lots whose counter is not 0, in ascending order. */
  function KeptIndices(remaining: seq<real>): (idx: seq<nat>)
    ensures |idx| <= |remaining|
    decreases |remaining|
  {
    if |remaining| == 0 then []
    else (if remaining[0] != 0.0 then [0] else []) + Shift(KeptIndices(remaining[1..]))
  }

  /** Each kept index names a lot whose counter is not 0. */
  lemma {:induction false} KeptIndicesNonZero(remaining: seq<real>)
    ensures forall k :: 0 <= k < |KeptIndices(remaining)| ==>
              KeptIndices(remaining)[k] < |remaining| && remaining[KeptIndices(remaining)[k]] != 0.0
    decreases |remaining|
  {
    if |remaining| > 0 {
      KeptIndicesNonZero(remaining[1..]);
      var rest := KeptIndices(remaining[1..]);
      var shifted := Shift(rest);
      var head: seq<nat> := if remaining[0] != 0.0 then [0] else [];
      var idx := KeptIndices(remaining);
      assert idx == head + shifted;
      forall k | |head| <= k < |idx|
        ensures idx[k] < |remaining| && remaining[idx[k]] != 0.0
      {
        var m := k - |head|;
        assert idx[k] == shifted[m] == rest[m] + 1;
        assert remaining[1..][rest[m]] == remaining[idx[k]];
      }
    }
  }

  /** The kept indices ascend strictly, so no lot is kept twice. */
  lemma {:induction false} KeptIndicesAscending(remaining: seq<real>)
    ensures forall k1, k2 :: 0 <= k1 < k2 < |KeptIndices(remaining)| ==> KeptIndices(remaining)[k1] < KeptIndices(remaining)[k2]
    decreases |remaining|
  {
    if |remaining| > 0 {
      KeptIndicesAscending(remaining[1..]);
      var rest := KeptIndices(remaining[1..]);
      var shifted := Shift(rest);
      var head: seq<nat> := if remaining[0] != 0.0 then [0] else [];
      var idx := KeptIndices(remaining);
      assert idx == head + shifted;
      forall k1, k2 | 0 <= k1 < k2 < |idx|
        ensures idx[k1] < idx[k2]
      {
        var m2 := k2 - |head|;
        assert idx[k2] == shifted[m2] == rest[m2] + 1;
        if k1 >= |head| {
          var m1 := k1 - |head|;
          assert idx[k1] == shifted[m1] == rest[m1] + 1;
        } else {
          assert idx[k1] == 0;
        }
      }
    }
  }

  /** Every lot whose counter is not 0 is kept. */
  lemma {:induction false} KeptIndicesComplete(remaining: seq<real>)
    ensures forall j :: 0 <= j < |remaining| && remaining[j] != 0.0 ==> j in KeptIndices(remaining)
    decreases |remaining|
  {
    if |remaining| > 0 {
      KeptIndicesComplete(remaining[1..]);
      var rest := KeptIndices(remaining[1..]);
      var shifted := Shift(rest);
      var head: seq<nat> := if remaining[0] != 0.0 then [0] else [];
      var idx := KeptIndices(remaining);
      assert idx == head + shifted;
      forall j | 0 <= j < |remaining| && remaining[j] != 0.0
        ensures j in idx
      {
        if j == 0 {
          assert idx[0] == 0;
        } else {
          assert remaining[1..][j - 1] == remaining[j];
          var m :| 0 <= m < |rest| && rest[m] == j - 1;
          assert idx[|head| + m] == shifted[m] == j;
        }
      }
    }
  }

  /** One step of `RemainingBuys`: the first lot, if its counter is not 0, then the rest. */
  lemma RemainingBuysCons(lots: seq<BuyEvent>, remaining: seq<real>)
    requires |remaining| == |lots| && |lots| > 0
    ensures RemainingBuys(lots, remaining)
            == (if remaining[0] == 0.0 then [] else [Shrink(lots[0], remaining[0])]) + RemainingBuys(lots[1..], remaining[1..])
  {
  }

  /** One step of `KeptIndices`. */
  lemma KeptIndicesCons(remaining: seq<real>)
    requires |remaining| > 0
    ensures KeptIndices(remaining) == (if remaining[0] != 0.0 then [0] else []) + Shift(KeptIndices(remaining[1..]))
  {
  }

  /** Entry `k` of `r` is lot `idx[k]` cut down to its counter. */
  ghost predicate IndexedBy(lots: seq<BuyEvent>, remaining: seq<real>, r: seq<BuyEvent>, idx: seq<nat>)
    requires |remaining| == |lots|
  {
    && |r| == |idx|
    && forall k :: 0 <= k < |r| ==> idx[k] < |lots| && r[k] == Shrink(lots[idx[k]], remaining[idx[k]])
  }

  /**
   * The unconsumed lots, entry by entry: entry `k` is the `k`-th lot with a
   * non-zero counter, cut down to that counter, so the lots keep their order
   * and each appears once.
   */
  lemma {:induction false} RemainingBuysIndexed(lots: seq<BuyEvent>, remaining: seq<real>)
    requires |remaining| == |lots|
    ensures IndexedBy(lots, remaining, RemainingBuys(lots, remaining), KeptIndices(remaining))
    decreases |lots|
  {
    if |lots| > 0 {
      RemainingBuysIndexed(lots[1..], remaining[1..]);
      RemainingBuysCons(lots, remaining);
      KeptIndicesCons(remaining);
      var rest := KeptIndices(remaining[1..]);
      var tail := RemainingBuys(lots[1..], remaining[1..]);
      var h := if remaining[0] == 0.0 then 0 else 1;
      var r := RemainingBuys(lots, remaining);
      var idx := KeptIndices(remaining);
      assert IndexedBy(lots[1..], remaining[1..], tail, rest);
      assert |r| == |idx|;
      forall k | 0 <= k < |r|
        ensures idx[k] < |lots| && r[k] == Shrink(lots[idx[k]], remaining[idx[k]])
      {
        if k >= h {
          var m := k - h;
          assert r[k] == tail[m] && idx[k] == rest[m] + 1;
          assert lots[1..][rest[m]] == lots[idx[k]] && remaining[1..][rest[m]] == remaining[idx[k]];
        }
      }
    }
  }

  /** With sorted lots the unconsumed lots are sorted by `buyDate` too. */
  lemma {:induction false} RemainingBuysSorted(lots: seq<BuyEvent>, remaining: seq<real>)
    requires |remaining| == |lots| && SortedBy(lots, BuyDate)
    ensures SortedBy(RemainingBuys(lots, remaining), BuyDate)
    decreases |lots|
  {
    if |lots| > 0 {
      RemainingBuysSorted(lots[1..], remaining[1..]);
      var rest := RemainingBuys(lots[1..], remaining[1..]);
      RemainingBuysMembers(lots[1..], remaining[1..]);
      forall b | b in rest
        ensures lots[0].buyDate <= b.buyDate
      {
        var j :| 0 <= j < |lots[1..]| && remaining[1..][j] != 0.0 && b == Shrink(lots[1..][j], remaining[1..][j]);
        assert BuyDate(lots[0]) <= BuyDate(lots[j + 1]);
      }
    }
  }

  /** What the allocator returns. */
  datatype CostBasisData = CostBasisData(gainLossEvents: seq<GainLoss>, remainingBuys: seq<BuyEvent>)

  /**
   * `deriveCostBasis`: FIFO-allocate the sells against the buys, returning
   * the gain/loss records and the unconsumed lots; with `strict` set, a sell
   * left with more than `Epsilon` unmatched units throws instead.
   */
  function DeriveCostBasis(buys: seq<BuyEvent>, sells: seq<SellEvent>, strict: bool): (r: Result<CostBasisData, UnknownCostBasis>)
    ensures !strict ==> r.Success?
    ensures r.Success? ==> forall k :: 0 <= k < |r.value.gainLossEvents| ==> RecordConsistent(r.value.gainLossEvents[k])
    ensures r.Success? ==> forall k :: 0 <= k < |r.value.remainingBuys| ==> LotConsistent(r.value.remainingBuys[k])
    ensures r.Success? <==> Allocate(buys, sells, strict).Success?
    ensures r.Failure? ==> r.error == Allocate(buys, sells, strict).error
    ensures r.Success? ==> (r.value.gainLossEvents == GainLosses(SortedLots(buys), Allocate(buys, sells, strict).value.matches)
                            && r.value.remainingBuys == RemainingBuys(SortedLots(buys), Allocate(buys, sells, strict).value.remaining))
  {
    var lots := SortedLots(buys);
    match Allocate(buys, sells, strict)
    case Failure(e) => Failure(e)
    case Success(led) => Success(CostBasisData(GainLosses(lots, led.matches), RemainingBuys(lots, led.remaining)))
  }

  /** `deriveCostBasisData`: the allocator in its default, non-throwing mode. */
  function DeriveCostBasisData(buys: seq<BuyEvent>, sells: seq<SellEvent>): (d: CostBasisData)
    ensures DeriveCostBasis(buys, sells, false) == Success(d)
  {
    DeriveCostBasis(buys, sells, false).value
  }

  /** `deriveRemainingUnits`: units bought minus units sold, with no clamping at 0. */
  function DeriveRemainingUnits(buys: seq<BuyEvent>, sells: seq<SellEvent>): real {
    Sum(buys, UnitsBought) - Sum(sells, UnitsSold)
  }

  /** `deriveRealizedPnL`: the sum of the records' amounts. */
  function DeriveRealizedPnL(events: seq<GainLoss>): real {
    Sum(events, GainLossAmount)
  }

  /** `deriveUnrealizedPnL`: for each lot, its value at `price` minus what it cost. */
  function DeriveUnrealizedPnL(remainingBuys: seq<BuyEvent>, price: real): real
    decreases |remainingBuys|
  {
    if |remainingBuys| == 0 then 0.0
    else (remainingBuys[0].unitsBought * price - remainingBuys[0].amount) + DeriveUnrealizedPnL(remainingBuys[1..], price)
  }

  function RecordUnits(g: GainLoss): real { g.unitsSold }

  /**
   * Record `k` is booked from match `k`: it carries the match's units and
   * sale, and the price and date of the lot the units came from, or the
   * zero-cost-basis sentinel's.
   */
  ghost predicate RecordsOfMatches(lots: seq<BuyEvent>, ms: seq<Match>, gs: seq<GainLoss>) {
    && |gs| == |ms|
    && forall k :: 0 <= k < |ms| ==>
         && gs[k].unitsSold == ms[k].units
         && gs[k].sellDate == ms[k].sell.sellDate
         && gs[k].sellUnitPrice == ms[k].sell.unitPrice
         && (ms[k].FromLot? ==> ms[k].lot < |lots| && gs[k].buyDate == lots[ms[k].lot].buyDate
                                && gs[k].buyUnitPrice == lots[ms[k].lot].unitPrice)
         && (ms[k].ZeroCostBasis? ==> ZeroBasisRecord(gs[k]))
  }

  /**
   * Per-lot conservation of a whole run, on what `deriveCostBasis` returns:
   * the records are booked one per match of the FIFO ledger, each sorted
   * lot's `unitsBought` is its final counter plus the units of the records
   * drawn from it, and the unconsumed lots are the lots with a non-zero
   * counter, cut down to that counter.
   */
  lemma CostBasisConservation(buys: seq<BuyEvent>, sells: seq<SellEvent>, strict: bool)
    ensures var lots := SortedLots(buys);
            var a := Allocate(buys, sells, strict);
            var r := DeriveCostBasis(buys, sells, strict);
            && (r.Success? <==> a.Success?)
            && (r.Success? ==>
                  && ConservesLots(Counters(lots), a.value.remaining, a.value.matches)
                  && RecordsOfMatches(lots, a.value.matches, r.value.gainLossEvents)
                  && IndexedBy(lots, a.value.remaining, r.value.remainingBuys, KeptIndices(a.value.remaining)))
  {
    var lots := SortedLots(buys);
    var a := Allocate(buys, sells, strict);
    LedgerConserves(lots, Counters(lots), SortBy(sells, SellDate), strict);
    if a.Success? {
      RemainingBuysIndexed(lots, a.value.remaining);
    }
  }

  /**
   * The records of a run account for every unit sold: their units plus the
   * residue dropped below the epsilon equal the units of all the sells.
   */
  lemma CostBasisUnitsSold(buys: seq<BuyEvent>, sells: seq<SellEvent>, strict: bool)
    ensures var r := DeriveCostBasis(buys, sells, strict);
            r.Success? ==> Sum(r.value.gainLossEvents, RecordUnits) + Allocate(buys, sells, strict).value.dropped == Sum(sells, UnitsSold)
  {
    var lots := SortedLots(buys);
    var a := Allocate(buys, sells, strict);
    if a.Success? {
      var ms := a.value.matches;
      var gs := GainLosses(lots, ms);
      var units := seq(|ms|, k requires 0 <= k < |ms| => ms[k].units);
      SumMapped(ms, MatchUnits, units);
      SumMapped(gs, RecordUnits, units);
      LedgerTotals(lots, Counters(lots), SortBy(sells, SellDate), strict);
      SortBySum(sells, SellDate, UnitsSold);
    }
  }

  /** Every unit count of the input is non-negative. */
  ghost predicate NonNegativeUnits(buys: seq<BuyEvent>, sells: seq<SellEvent>) {
    && (forall k :: 0 <= k < |buys| ==> buys[k].unitsBought >= 0.0)
    && (forall k :: 0 <= k < |sells| ==> sells[k].unitsSold >= 0.0)
  }

  /**
   * Bounds of a whole run over non-negative units: every lot counter ends in
   * `[0, unitsBought]`, no record has negative units, and at most `Epsilon`
   * per sell is dropped.
   */
  lemma CostBasisBounds(buys: seq<BuyEvent>, sells: seq<SellEvent>, strict: bool)
    requires NonNegativeUnits(buys, sells)
    ensures var lots := SortedLots(buys); var r := Allocate(buys, sells, strict);
            r.Success? ==>
              && (forall j :: 0 <= j < |lots| ==> 0.0 <= r.value.remaining[j] <= lots[j].unitsBought)
              && (forall k :: 0 <= k < |r.value.matches| ==> r.value.matches[k].units >= 0.0)
              && 0.0 <= r.value.dropped <= Epsilon * |sells| as real
  {
    var lots := SortedLots(buys);
    var sorted := SortBy(sells, SellDate);
    forall j | 0 <= j < |lots|
      ensures lots[j].unitsBought >= 0.0
    {
      assert lots[j] in multiset(buys);
    }
    forall k | 0 <= k < |sorted|
      ensures sorted[k].unitsSold >= 0.0
    {
      assert sorted[k] in multiset(sells);
    }
    LedgerBounds(lots, Counters(lots), sorted, strict);
  }

  function GainLossSellDate(g: GainLoss): real { g.sellDate }

  /**
   * Ordering of a run's output: records grouped by sell in ascending
   * `sellDate`, and the unconsumed lots in ascending `buyDate`.
   */
  lemma CostBasisOrdering(buys: seq<BuyEvent>, sells: seq<SellEvent>, strict: bool)
    ensures var r := DeriveCostBasis(buys, sells, strict);
            r.Success? ==> SortedBy(r.value.gainLossEvents, GainLossSellDate) && SortedBy(r.value.remainingBuys, BuyDate)
  {
    var lots := SortedLots(buys);
    var r := Allocate(buys, sells, strict);
    if r.Success? {
      LedgerOrdered(lots, Counters(lots), SortBy(sells, SellDate), strict);
      RemainingBuysSorted(lots, r.value.remaining);
      var gs := GainLosses(lots, r.value.matches);
      forall k1, k2 | 0 <= k1 < k2 < |gs|
        ensures GainLossSellDate(gs[k1]) <= GainLossSellDate(gs[k2])
      {
        assert MatchSellDate(r.value.matches[k1]) <= MatchSellDate(r.value.matches[k2]);
      }
    }
  }

  /**
   * The records of a run come in blocks, one per sell in the stable `sellDate`
   * order of the sells; each block holds that sell's lot matches in ascending
   * `buyDate` and ends with its zero-cost-basis record, if any.
   */
  lemma CostBasisBlocks(buys: seq<BuyEvent>, sells: seq<SellEvent>, strict: bool)
    ensures var lots := SortedLots(buys);
            var sorted := SortBy(sells, SellDate);
            var ss := Settlements(lots, Counters(lots), sorted);
            && (Allocate(buys, sells, strict).Success? ==> Allocate(buys, sells, strict).value.matches == MatchesOf(ss))
            && (forall k :: 0 <= k < |ss| ==> WithinSellOrder(lots, sorted[k], ss[k]))
  {
    var lots := SortedLots(buys);
    LedgerBlocks(lots, Counters(lots), SortBy(sells, SellDate), strict);
    SettlementsOrdered(lots, Counters(lots), SortBy(sells, SellDate));
  }

  /**
   * Strict mode returns what the default mode returns, unless a sell of the
   * run is left with more than `Epsilon` unmatched units; then it throws at
   * the first such sell in date order.
   */
  lemma StrictRun(buys: seq<BuyEvent>, sells: seq<SellEvent>)
    ensures var lots := SortedLots(buys);
            var sorted := SortBy(sells, SellDate);
            var ss := Settlements(lots, Counters(lots), sorted);
            var r := DeriveCostBasis(buys, sells, true);
            && (r.Success? ==> r == DeriveCostBasis(buys, sells, false))
            && (r.Failure? <==> FirstUnknown(ss) < |ss|)
            && (r.Failure? ==> FirstUnknown(ss) < |ss|
                               && r.error == UnknownCostBasisErrorAsWritten(sorted[FirstUnknown(ss)], ss[FirstUnknown(ss)].leftover))
  {
    var lots := SortedLots(buys);
    StrictSuccessAgrees(lots, Counters(lots), SortBy(sells, SellDate));
    StrictFailsAtFirstUnknown(lots, Counters(lots), SortBy(sells, SellDate), true);
  }

  /** A record drawn from a buy lot dated no later than the sale. */
  ghost predicate DrawnFromEarlierBuy(g: GainLoss, buys: seq<BuyEvent>) {
    exists b :: b in buys && g.buyDate == b.buyDate && g.buyUnitPrice == b.unitPrice && b.buyDate <= g.sellDate
  }

  /** The zero-cost-basis sentinel record: the whole sale price counts as gain. */
  predicate ZeroBasisRecord(g: GainLoss) {
    g.buyDate == 0.0 && g.buyUnitPrice == 0.0 && g.amount == g.unitsSold * g.sellUnitPrice
  }

  /** Causality of a run: every record comes from a buy made no later than its sale, or is the zero-cost-basis sentinel. */
  lemma CostBasisCausality(buys: seq<BuyEvent>, sells: seq<SellEvent>, strict: bool)
    ensures var r := DeriveCostBasis(buys, sells, strict);
            r.Success? ==> forall k :: 0 <= k < |r.value.gainLossEvents| ==>
              DrawnFromEarlierBuy(r.value.gainLossEvents[k], buys) || ZeroBasisRecord(r.value.gainLossEvents[k])
  {
    var lots := SortedLots(buys);
    var r := Allocate(buys, sells, strict);
    if r.Success? {
      LedgerCausal(lots, Counters(lots), SortBy(sells, SellDate), strict);
      var gs := GainLosses(lots, r.value.matches);
      forall k | 0 <= k < |gs|
        ensures DrawnFromEarlierBuy(gs[k], buys) || ZeroBasisRecord(gs[k])
      {
        var m := r.value.matches[k];
        if m.FromLot? {
          assert lots[m.lot] in multiset(buys);
          assert lots[m.lot] in buys;
        }
      }
    }
  }

  /**
   * The cross-check between `deriveRemainingUnits` and the allocator: the
   * units left in the unconsumed lots are units bought minus units sold, plus
   * what was booked at zero cost basis or dropped as residue.
   */
  lemma RemainingUnitsCrossCheck(buys: seq<BuyEvent>, sells: seq<SellEvent>, strict: bool)
    ensures var r := Allocate(buys, sells, strict);
            r.Success? ==>
              Sum(DeriveCostBasis(buys, sells, strict).value.remainingBuys, UnitsBought)
              == DeriveRemainingUnits(buys, sells) + Sum(r.value.matches, ZeroBasisUnits) + r.value.dropped
  {
    var lots := SortedLots(buys);
    var sorted := SortBy(sells, SellDate);
    var r := Allocate(buys, sells, strict);
    if r.Success? {
      LedgerTotals(lots, Counters(lots), sorted, strict);
      MatchUnitsSplit(r.value.matches);
      SumMapped(lots, UnitsBought, Counters(lots));
      SortBySum(buys, BuyDate, UnitsBought);
      SortBySum(sells, SellDate, UnitsSold);
    }
  }

  /** Over non-negative units the allocator never holds fewer units than `deriveRemainingUnits` reports. */
  lemma RemainingUnitsNoMoreThanHeld(buys: seq<BuyEvent>, sells: seq<SellEvent>)
    requires NonNegativeUnits(buys, sells)
    ensures DeriveRemainingUnits(buys, sells) <= Sum(DeriveCostBasisData(buys, sells).remainingBuys, UnitsBought)
  {
    var r := Allocate(buys, sells, false);
    RemainingUnitsCrossCheck(buys, sells, false);
    CostBasisBounds(buys, sells, false);
    SumNonNegative(r.value.matches, ZeroBasisUnits);
  }

  /** Realized PnL adds up over any split of the records, and is 0 for none. */
  lemma RealizedPnLAdditive(a: seq<GainLoss>, b: seq<GainLoss>)
    ensures DeriveRealizedPnL(a + b) == DeriveRealizedPnL(a) + DeriveRealizedPnL(b)
    ensures DeriveRealizedPnL([]) == 0.0
  {
    SumConcat(a, b, GainLossAmount);
  }

  /** Unrealized PnL is the market value of the units held minus what they cost. */
  lemma {:induction false} UnrealizedPnLIsMarkToMarket(remainingBuys: seq<BuyEvent>, price: real)
    ensures DeriveUnrealizedPnL(remainingBuys, price) == price * Sum(remainingBuys, UnitsBought) - Sum(remainingBuys, BuyAmount)
    decreases |remainingBuys|
  {
    if |remainingBuys| > 0 {
      UnrealizedPnLIsMarkToMarket(remainingBuys[1..], price);
    }
  }

  /**
   * With no buys at all, a sell of more than `Epsilon` units is booked whole at
   * zero cost basis; for a sell whose amount is its units times its unit
   * price, the record's gain is exactly the sale amount.
   */
  lemma NoBuysBooksWholeSale(sell: SellEvent)
    requires sell.unitsSold > Epsilon && SellPriced(sell)
    ensures DeriveCostBasisData([], [sell])
            == CostBasisData([GainLoss(sell.amount, Short, sell.sellDate, 0.0, sell.unitsSold, 0.0, sell.unitPrice)], [])
  {
    assert SortBy([sell], SellDate) == [sell];
    assert SortedLots([]) == [];
    var s := SettleSell([], [], sell);
    assert s == Settlement([], [ZeroCostBasis(sell, sell.unitsSold)], sell.unitsSold);
    assert s.Unknown() && s.Dropped() == 0.0;
    assert [sell][1..] == [];
    assert SettleSells([], [], [], false) == Success(Ledger([], [], 0.0));
    assert s.matches + [] == s.matches;
    assert SettleSells([], [], [sell], false) == Success(Ledger([], [ZeroCostBasis(sell, sell.unitsSold)], 0.0));
    assert sell.unitsSold * (sell.unitPrice - 0.0) == sell.amount;
    var m := ZeroCostBasis(sell, sell.unitsSold);
    var g := GainLoss(sell.amount, Short, sell.sellDate, 0.0, sell.unitsSold, 0.0, sell.unitPrice);
    assert GainLossOf([], m) == g;
    assert GainLosses([], [m]) == [g];
    assert RemainingBuys([], []) == [];
    assert Allocate([], [sell], false) == Success(Ledger([], [m], 0.0));
    assert DeriveCostBasis([], [sell], false) == Success(CostBasisData([g], []));
  }
}
