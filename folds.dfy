/**
 * Sums over joined trade rows: over all rows, over one market's rows, and market by market.
 * Every route that aggregates a user's trades is specified with these.
 */
module Folds {
  import opened Records
  import opened OrderedMaps

  /** Some row belongs to market `m`. */
  predicate HasMarket(rows: seq<TradeRow>, m: MarketId)
    decreases |rows|
  {
    rows != [] && (rows[|rows| - 1].marketId == m || HasMarket(rows[..|rows| - 1], m))
  }

  /** The distinct markets of `rows`, in the order of their first row. */
  function MarketsInOrder(rows: seq<TradeRow>): (ids: seq<MarketId>)
    ensures Distinct(ids)
    ensures forall m :: m in ids <==> HasMarket(rows, m)
    decreases |rows|
  {
    if rows == [] then []
    else
      var init, last := rows[..|rows| - 1], rows[|rows| - 1];
      assert rows == init + [last];
      var ids := MarketsInOrder(init);
      if last.marketId in ids then ids else ids + [last.marketId]
  }

  /** The first row of market `m`. */
  function FirstOf(rows: seq<TradeRow>, m: MarketId): (r: TradeRow)
    requires HasMarket(rows, m)
    ensures r in rows && r.marketId == m
    decreases |rows|
  {
    var init, last := rows[..|rows| - 1], rows[|rows| - 1];
    assert rows == init + [last];
    if HasMarket(init, m) then FirstOf(init, m) else last
  }

  /** The last row of market `m`. */
  function LastOf(rows: seq<TradeRow>, m: MarketId): (r: TradeRow)
    requires HasMarket(rows, m)
    ensures r in rows && r.marketId == m
    decreases |rows|
  {
    var init, last := rows[..|rows| - 1], rows[|rows| - 1];
    assert rows == init + [last];
    if last.marketId == m then last else LastOf(init, m)
  }

  /** The sum of `f` over all rows, added up from the first row on. */
  function SumAll(rows: seq<TradeRow>, f: TradeRow -> real): real
    decreases |rows|
  {
    if rows == [] then 0.0 else SumAll(rows[..|rows| - 1], f) + f(rows[|rows| - 1])
  }

  /** The sum of `f` over the rows of market `m`. */
  function SumIn(rows: seq<TradeRow>, m: MarketId, f: TradeRow -> real): real
    decreases |rows|
  {
    if rows == [] then 0.0
    else
      var last := rows[|rows| - 1];
      SumIn(rows[..|rows| - 1], m, f) + (if last.marketId == m then f(last) else 0.0)
  }

  /** The sum, over the markets `ids`, of each market's sum of `f`. */
  function SumByMarket(ids: seq<MarketId>, rows: seq<TradeRow>, f: TradeRow -> real): real
    decreases |ids|
  {
    if ids == [] then 0.0 else SumByMarket(ids[..|ids| - 1], rows, f) + SumIn(rows, ids[|ids| - 1], f)
  }

  lemma SumAllSnoc(rows: seq<TradeRow>, x: TradeRow, f: TradeRow -> real)
    ensures SumAll(rows + [x], f) == SumAll(rows, f) + f(x)
  {
    assert (rows + [x])[..|rows|] == rows;
  }

  lemma SumInSnoc(rows: seq<TradeRow>, x: TradeRow, m: MarketId, f: TradeRow -> real)
    ensures SumIn(rows + [x], m, f) == SumIn(rows, m, f) + (if x.marketId == m then f(x) else 0.0)
  {
    assert (rows + [x])[..|rows|] == rows;
  }

  lemma MarketsInOrderSnoc(rows: seq<TradeRow>, x: TradeRow)
    ensures MarketsInOrder(rows + [x]) ==
      if HasMarket(rows, x.marketId) then MarketsInOrder(rows) else MarketsInOrder(rows) + [x.marketId]
  {
    assert (rows + [x])[..|rows|] == rows;
  }

  lemma SumByMarketSnoc(ids: seq<MarketId>, m: MarketId, rows: seq<TradeRow>, f: TradeRow -> real)
    ensures SumByMarket(ids + [m], rows, f) == SumByMarket(ids, rows, f) + SumIn(rows, m, f)
  {
    assert (ids + [m])[..|ids|] == ids;
  }

  /** A market with no rows sums to zero. */
  lemma {:induction false} SumInAbsent(rows: seq<TradeRow>, m: MarketId, f: TradeRow -> real)
    requires !HasMarket(rows, m)
    ensures SumIn(rows, m, f) == 0.0
    decreases |rows|
  {
    if rows != [] {
      var init := rows[..|rows| - 1];
      assert rows == init + [rows[|rows| - 1]];
      SumInAbsent(init, m, f);
    }
  }

  /** One more row changes the market-by-market sum by its own `f`, once, if its market is listed. */
  lemma {:induction false} SumByMarketAddRow(ids: seq<MarketId>, rows: seq<TradeRow>, x: TradeRow, f: TradeRow -> real)
    requires Distinct(ids)
    ensures SumByMarket(ids, rows + [x], f) == SumByMarket(ids, rows, f) + (if x.marketId in ids then f(x) else 0.0)
    decreases |ids|
  {
    if ids != [] {
      var init, k := ids[..|ids| - 1], ids[|ids| - 1];
      assert ids == init + [k];
      assert Distinct(init);
      SumByMarketAddRow(init, rows, x, f);
      SumInSnoc(rows, x, k, f);
      assert x.marketId in ids <==> x.marketId in init || x.marketId == k;
      assert !(x.marketId in init && x.marketId == k);
    }
  }

  /** Grouping rows by market loses and duplicates nothing: the per-market sums add up to the total. */
  lemma {:induction false} Partition(rows: seq<TradeRow>, f: TradeRow -> real)
    ensures SumByMarket(MarketsInOrder(rows), rows, f) == SumAll(rows, f)
    decreases |rows|
  {
    if rows != [] {
      var init, x := rows[..|rows| - 1], rows[|rows| - 1];
      assert rows == init + [x];
      var ids := MarketsInOrder(init);
      Partition(init, f);
      MarketsInOrderSnoc(init, x);
      SumAllSnoc(init, x, f);
      SumByMarketAddRow(ids, init, x, f);
      if HasMarket(init, x.marketId) {
        assert MarketsInOrder(rows) == ids;
        assert SumByMarket(ids, rows, f) == SumByMarket(ids, init, f) + f(x);
      } else {
        assert MarketsInOrder(rows) == ids + [x.marketId];
        assert SumByMarket(ids, rows, f) == SumByMarket(ids, init, f);
        SumByMarketSnoc(ids, x.marketId, rows, f);
        SumInAbsent(init, x.marketId, f);
        SumInSnoc(init, x, x.marketId, f);
        assert SumIn(rows, x.marketId, f) == f(x);
      }
    }
  }

  /** Splitting a sequence of rows in two splits its sum. */
  lemma {:induction false} SumAllAppend(a: seq<TradeRow>, b: seq<TradeRow>, f: TradeRow -> real)
    ensures SumAll(a + b, f) == SumAll(a, f) + SumAll(b, f)
    decreases |b|
  {
    if b == [] {
      assert a + b == a;
    } else {
      var init, x := b[..|b| - 1], b[|b| - 1];
      assert b == init + [x];
      assert a + b == (a + init) + [x];
      SumAllAppend(a, init, f);
      SumAllSnoc(a + init, x, f);
      SumAllSnoc(init, x, f);
    }
  }

  /** The sum over rows does not depend on their order. */
  lemma {:induction false} SumAllPermutation(a: seq<TradeRow>, b: seq<TradeRow>, f: TradeRow -> real)
    requires multiset(a) == multiset(b)
    ensures SumAll(a, f) == SumAll(b, f)
    decreases |a|
  {
    if a != [] {
      var init, x := a[..|a| - 1], a[|a| - 1];
      assert a == init + [x];
      assert x in multiset(b);
      var k :| 0 <= k < |b| && b[k] == x;
      var rest := b[..k] + b[k + 1..];
      assert b == b[..k] + [x] + b[k + 1..];
      assert multiset(rest) == multiset(b) - multiset{x};
      assert multiset(init) == multiset(rest);
      SumAllPermutation(init, rest, f);
      SumAllSnoc(init, x, f);
      SumAllAppend(b[..k] + [x], b[k + 1..], f);
      SumAllSnoc(b[..k], x, f);
      SumAllAppend(b[..k], b[k + 1..], f);
    }
  }

  lemma HasMarketSnoc(rows: seq<TradeRow>, x: TradeRow, m: MarketId)
    ensures HasMarket(rows + [x], m) <==> HasMarket(rows, m) || x.marketId == m
  {
    assert (rows + [x])[..|rows|] == rows;
  }

  /** HasMarket holds exactly when some row of `rows` belongs to `m`. */
  lemma {:induction false} HasMarketIff(rows: seq<TradeRow>, m: MarketId)
    ensures HasMarket(rows, m) <==> exists r :: r in rows && r.marketId == m
    decreases |rows|
  {
    if rows != [] {
      var init, last := rows[..|rows| - 1], rows[|rows| - 1];
      assert rows == init + [last];
      HasMarketIff(init, m);
      assert forall r :: r in rows <==> r in init || r == last;
    }
  }

  lemma FirstOfSnoc(rows: seq<TradeRow>, x: TradeRow, m: MarketId)
    requires HasMarket(rows + [x], m)
    ensures FirstOf(rows + [x], m) == if HasMarket(rows, m) then FirstOf(rows, m) else x
  {
    assert (rows + [x])[..|rows|] == rows;
  }

  lemma LastOfSnoc(rows: seq<TradeRow>, x: TradeRow, m: MarketId)
    requires HasMarket(rows + [x], m)
    ensures x.marketId != m ==> HasMarket(rows, m)
    ensures LastOf(rows + [x], m) == if x.marketId == m then x else LastOf(rows, m)
  {
    assert (rows + [x])[..|rows|] == rows;
    HasMarketSnoc(rows, x, m);
  }
}
