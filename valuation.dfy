/**
 * Mark-to-market at live prices: what a row's shares are worth now, and what a user's
 * holdings in each market are worth when marked at that market's live YES price.
 */
module Valuation {
  import opened Records
  import opened Folds
  import opened Db

  /** The price of one share of `side` when YES trades at `pYes`. */
  function SidePrice(side: Side, pYes: real): real {
    if side == Yes then pYes else 1.0 - pYes
  }

  /** What the row's shares are worth at their market's live price. */
  function CurrentValue(r: TradeRow, price: PriceFn): real {
    r.shares * SidePrice(r.side, RowPYes(r, price))
  }

  function ValueAt(price: PriceFn): TradeRow -> real {
    r => CurrentValue(r, price)
  }

  /** YES shares at pYes plus NO shares at 1 - pYes. */
  function MarkValue(yes: real, no: real, pYes: real): real {
    yes * pYes + no * (1.0 - pYes)
  }

  /** The sum, over the markets `ids`, of the user's holdings marked at each market's live price. */
  function LiveMark(ids: seq<MarketId>, rows: seq<TradeRow>, markets: seq<Market>, price: PriceFn): real
    decreases |ids|
  {
    if ids == [] then 0.0
    else
      var m := ids[|ids| - 1];
      LiveMark(ids[..|ids| - 1], rows, markets, price)
        + MarkValue(SumIn(rows, m, YesShares), SumIn(rows, m, NoShares), LivePrice(markets, m, price))
  }

  /** Within one market, marking the summed holdings equals summing each row's current value. */
  lemma {:induction false} MarketValueLinear(rows: seq<TradeRow>, m: MarketId, markets: seq<Market>, price: PriceFn)
    requires JoinedFrom(rows, markets)
    ensures SumIn(rows, m, ValueAt(price))
      == MarkValue(SumIn(rows, m, YesShares), SumIn(rows, m, NoShares), LivePrice(markets, m, price))
    decreases |rows|
  {
    if rows != [] {
      var init, x := rows[..|rows| - 1], rows[|rows| - 1];
      assert JoinedFrom(init, markets) by {
        assert forall r :: r in init ==> r in rows;
      }
      MarketValueLinear(init, m, markets, price);
      var p := LivePrice(markets, m, price);
      var y, n := SumIn(init, m, YesShares), SumIn(init, m, NoShares);
      if x.marketId == m {
        assert ValueAt(price)(x) == YesShares(x) * p + NoShares(x) * (1.0 - p) by {
          assert x in rows;
          JoinedRowPrice(rows, markets, price, x);
        }
        MarkValueAdd(y, n, YesShares(x), NoShares(x), p);
      }
    }
  }

  /** Marking is additive in the shares held. */
  lemma MarkValueAdd(yes: real, no: real, dYes: real, dNo: real, pYes: real)
    ensures MarkValue(yes + dYes, no + dNo, pYes) == MarkValue(yes, no, pYes) + (dYes * pYes + dNo * (1.0 - pYes))
  {
    assert (yes + dYes) * pYes == yes * pYes + dYes * pYes;
    assert (no + dNo) * (1.0 - pYes) == no * (1.0 - pYes) + dNo * (1.0 - pYes);
  }

  /** Marking every market's holdings at live prices equals summing every trade's current value. */
  lemma {:induction false} LiveMarkByMarket(ids: seq<MarketId>, rows: seq<TradeRow>, markets: seq<Market>, price: PriceFn)
    requires JoinedFrom(rows, markets)
    ensures LiveMark(ids, rows, markets, price) == SumByMarket(ids, rows, ValueAt(price))
    decreases |ids|
  {
    if ids != [] {
      LiveMarkByMarket(ids[..|ids| - 1], rows, markets, price);
      MarketValueLinear(rows, ids[|ids| - 1], markets, price);
    }
  }

  lemma LiveMarkIsSumOfValues(rows: seq<TradeRow>, markets: seq<Market>, price: PriceFn)
    requires JoinedFrom(rows, markets)
    ensures LiveMark(MarketsInOrder(rows), rows, markets, price) == SumAll(rows, ValueAt(price))
  {
    LiveMarkByMarket(MarketsInOrder(rows), rows, markets, price);
    Partition(rows, ValueAt(price));
  }
}
