/** GET /api/portfolio: bootstrap the account, then report its balance and the live value of its holdings. */
module PortfolioRoute {
  import opened Wrappers
  import opened Records
  import opened OrderedMaps
  import opened Folds
  import opened Db
  import opened Valuation

  /** The fold's entry for one market: summed YES and NO shares, summed cost, and a YES price. */
  datatype Entry = Entry(yes: real, no: real, cost: real, priceYes: real)

  datatype Portfolio = Portfolio(balance: real, portfolioValue: real)

  /** What the fold holds for market `m`: its sums, priced at the YES price of its last row. */
  function EntryFor(rows: seq<TradeRow>, m: MarketId, price: PriceFn): Entry
    requires HasMarket(rows, m)
  {
    Entry(SumIn(rows, m, YesShares), SumIn(rows, m, NoShares), SumIn(rows, m, Cost), RowPYes(LastOf(rows, m), price))
  }

  lemma EntryForStep(rows: seq<TradeRow>, x: TradeRow, m: MarketId, price: PriceFn)
    requires HasMarket(rows + [x], m)
    ensures x.marketId != m ==> HasMarket(rows, m) && EntryFor(rows + [x], m, price) == EntryFor(rows, m, price)
    ensures x.marketId == m ==>
      var prev := if HasMarket(rows, m) then EntryFor(rows, m, price) else Entry(0.0, 0.0, 0.0, RowPYes(x, price));
      EntryFor(rows + [x], m, price)
        == Entry(prev.yes + YesShares(x), prev.no + NoShares(x), prev.cost + x.cost, RowPYes(x, price))
  {
    LastOfSnoc(rows, x, m);
    SumInSnoc(rows, x, m, YesShares);
    SumInSnoc(rows, x, m, NoShares);
    SumInSnoc(rows, x, m, Cost);
    if !HasMarket(rows, m) {
      SumInAbsent(rows, m, YesShares);
      SumInAbsent(rows, m, NoShares);
      SumInAbsent(rows, m, Cost);
    }
  }

  /** `posMap` is what the fold holds after the rows `rows`. */
  ghost predicate Folded(posMap: OrderedMap<MarketId, Entry>, rows: seq<TradeRow>, price: PriceFn) {
    && posMap.Valid()
    && posMap.keys == MarketsInOrder(rows)
    && forall m :: m in posMap.entries ==> HasMarket(rows, m) && posMap.entries[m] == EntryFor(rows, m, price)
  }

  /** The entry one more row leaves: its side's shares and its cost added, its YES price taken. */
  function Step(prev: Entry, x: TradeRow, price: PriceFn): Entry {
    Entry(prev.yes + YesShares(x), prev.no + NoShares(x), prev.cost + x.cost, RowPYes(x, price))
  }

  lemma FoldStep(posMap: OrderedMap<MarketId, Entry>, rows: seq<TradeRow>, x: TradeRow, price: PriceFn)
    requires Folded(posMap, rows, price)
    ensures Folded(posMap.Put(x.marketId, Step(posMap.Get(x.marketId).GetOr(Entry(0.0, 0.0, 0.0, RowPYes(x, price))), x, price)), rows + [x], price)
  {
    var entry := Step(posMap.Get(x.marketId).GetOr(Entry(0.0, 0.0, 0.0, RowPYes(x, price))), x, price);
    var next := posMap.Put(x.marketId, entry);
    assert next.keys == MarketsInOrder(rows + [x]) by {
      MarketsInOrderSnoc(rows, x);
      assert x.marketId in posMap.entries <==> HasMarket(rows, x.marketId);
    }
    forall m | m in next.entries
      ensures HasMarket(rows + [x], m) && next.entries[m] == EntryFor(rows + [x], m, price)
    {
      HasMarketSnoc(rows, x, m);
      EntryForStep(rows, x, m, price);
      if m == x.marketId {
        assert next.entries[m] == entry;
        if HasMarket(rows, m) {
          assert posMap.Get(m) == Some(EntryFor(rows, m, price));
        } else {
          assert posMap.Get(m) == None;
        }
      } else {
        assert next.entries[m] == posMap.entries[m];
      }
    }
  }

  /** The posMap update for one row: its side's shares and its cost added, its YES price taken. */
  method Absorb(posMap: OrderedMap<MarketId, Entry>, ghost done: seq<TradeRow>, row: TradeRow, price: PriceFn)
    returns (next: OrderedMap<MarketId, Entry>)
    requires Folded(posMap, done, price)
    ensures Folded(next, done + [row], price)
  {
    var pYes := price(row.qYes, row.qNo, row.b);
    var key := row.marketId;
    var entry := posMap.Get(key).GetOr(Entry(0.0, 0.0, 0.0, pYes));
    if row.side == Yes {
      entry := entry.(yes := entry.yes + row.shares);
      entry := entry.(priceYes := pYes);
    } else {
      entry := entry.(no := entry.no + row.shares);
      entry := entry.(priceYes := pYes);
    }
    entry := entry.(cost := entry.cost + row.cost);
    assert entry == Step(posMap.Get(key).GetOr(Entry(0.0, 0.0, 0.0, RowPYes(row, price))), row, price);
    FoldStep(posMap, done, row, price);
    next := posMap.Put(key, entry);
  }

  /**
   * The posMap loop: one entry per market in the order of its first row; the shares and
   * the cost are summed per market and side; the price is overwritten on every row.
   */
  method FoldRows(rows: seq<TradeRow>, price: PriceFn) returns (posMap: OrderedMap<MarketId, Entry>)
    ensures Folded(posMap, rows, price)
  {
    posMap := EmptyMap();
    for i := 0 to |rows|
      invariant Folded(posMap, rows[..i], price)
    {
      assert rows[..i + 1] == rows[..i] + [rows[i]];
      posMap := Absorb(posMap, rows[..i], rows[i], price);
    }
    assert rows[..|rows|] == rows;
  }

  /** The sum of the entries' marked values. */
  function MarkOfEntries(es: seq<Entry>): real
    decreases |es|
  {
    if es == [] then 0.0
    else
      var e := es[|es| - 1];
      MarkOfEntries(es[..|es| - 1]) + MarkValue(e.yes, e.no, e.priceYes)
  }

  /** The portfolioValue loop over the entries, in the map's order. */
  method SumValues(posMap: OrderedMap<MarketId, Entry>) returns (portfolioValue: real)
    requires posMap.Valid()
    ensures portfolioValue == MarkOfEntries(posMap.Values())
  {
    var values := posMap.Values();
    portfolioValue := 0.0;
    for i := 0 to |values|
      invariant portfolioValue == MarkOfEntries(values[..i])
    {
      assert values[..i + 1][..i] == values[..i];
      var p := values[i];
      var pYes := p.priceYes;
      var pNo := 1.0 - pYes;
      portfolioValue := portfolioValue + (p.yes * pYes + p.no * pNo);
    }
    assert values[..|values|] == values;
  }

  /** The entries the fold produces, in iteration order. */
  function Entries(rows: seq<TradeRow>, price: PriceFn): (es: seq<Entry>)
    ensures |es| == |MarketsInOrder(rows)|
  {
    var ids := MarketsInOrder(rows);
    seq(|ids|, i requires 0 <= i < |ids| => EntryFor(rows, ids[i], price))
  }

  /** Entries of joined rows are priced at their markets' live prices, so they mark like LiveMark. */
  lemma {:induction false} MarkOfEntriesIsLiveMark(ids: seq<MarketId>, rows: seq<TradeRow>, markets: seq<Market>, price: PriceFn)
    requires JoinedFrom(rows, markets)
    requires forall m :: m in ids ==> HasMarket(rows, m)
    ensures MarkOfEntries(seq(|ids|, i requires 0 <= i < |ids| => EntryFor(rows, ids[i], price)))
      == LiveMark(ids, rows, markets, price)
    decreases |ids|
  {
    var es := seq(|ids|, i requires 0 <= i < |ids| => EntryFor(rows, ids[i], price));
    if ids != [] {
      var init, m := ids[..|ids| - 1], ids[|ids| - 1];
      var es' := seq(|init|, i requires 0 <= i < |init| => EntryFor(rows, init[i], price));
      assert es[..|es| - 1] == es';
      MarkOfEntriesIsLiveMark(init, rows, markets, price);
      JoinedRowPrice(rows, markets, price, LastOf(rows, m));
    }
  }

  /** The portfolio's value is the sum of every trade's current value; with no trades it is 0. */
  lemma PortfolioValueIsSumOfTradeValues(rows: seq<TradeRow>, markets: seq<Market>, price: PriceFn)
    requires JoinedFrom(rows, markets)
    ensures MarkOfEntries(Entries(rows, price)) == SumAll(rows, ValueAt(price))
    ensures rows == [] ==> MarkOfEntries(Entries(rows, price)) == 0.0
  {
    MarkOfEntriesIsLiveMark(MarketsInOrder(rows), rows, markets, price);
    LiveMarkIsSumOfValues(rows, markets, price);
  }

  /**
   * `auth` is the identity provider's user, `price` the pricing library's yesPrice and
   * `fault` where, if anywhere, a store statement throws. The bootstrap is committed before
   * the reads, so a failure in the reads keeps the new profile and its bonus.
   */
  method Get(db: Database, auth: Option<UserId>, price: PriceFn, fault: Fault) returns (reply: Reply<Portfolio>)
    requires db.Valid()
    modifies db
    ensures db.Valid()
    ensures auth.None? ==> reply == Failure(Unauthorized, "unauthorized") && db.Contents() == old(db.Contents())
    ensures auth.Some? && fault == BeforeCommit ==>
      reply == Failure(ServerError, "server_error") && db.Contents() == old(db.Contents())
    ensures auth.Some? && fault != BeforeCommit ==>
      var u := auth.value;
      && db.profiles == old(db.profiles) + {u}
      && db.ledger == (if u in old(db.profiles) then old(db.ledger) else old(db.ledger) + [SignupEntry(u)])
      && db.markets == old(db.markets) && db.snapshots == old(db.snapshots) && db.trades == old(db.trades)
    ensures auth.Some? && fault == AfterCommit ==> reply == Failure(ServerError, "server_error")
    ensures auth.Some? && fault == NoFault ==>
      var u := auth.value;
      var rows := UserRows(db.trades, db.markets, u, None);
      && reply == Success(Portfolio(Balance(db.ledger, u), MarkOfEntries(Entries(rows, price))))
      && reply.payload.portfolioValue == SumAll(rows, ValueAt(price))
  {
    if auth.None? {
      return Failure(Unauthorized, "unauthorized");
    }
    var u := auth.value;
    // BEGIN
    var profiles0, ledger0 := db.profiles, db.ledger;
    var created := db.Bootstrap(u);
    if fault == BeforeCommit {
      // ROLLBACK
      db.profiles, db.ledger := profiles0, ledger0;
      return Failure(ServerError, "server_error");
    }
    // COMMIT
    var rows := UserRows(db.trades, db.markets, u, None);
    var posMap := FoldRows(rows, price);
    var portfolioValue := SumValues(posMap);
    var balance := Balance(db.ledger, u);
    if fault == AfterCommit {
      return Failure(ServerError, "server_error");
    }
    assert posMap.Values() == Entries(rows, price);
    PortfolioValueIsSumOfTradeValues(rows, db.markets, price);
    reply := Success(Portfolio(balance, portfolioValue));
  }
}
