/**
 * The derivations of the positions report: each joined trade valued at its market's live
 * price, the trades folded into one position per market, the positions valued, their pnl
 * totalled, and the trades replayed oldest-first into a cumulative pnl series.
 */
module Positions {
  import opened Records
  import opened OrderedMaps
  import opened Folds
  import opened Ordering
  import opened Db
  import opened Valuation

  /** A joined trade row with what it is worth now. */
  datatype ValuedTrade = ValuedTrade(row: TradeRow, priceNow: real, value: real, pnl: real, pct: real)

  /** pnl as a fraction of cost, or 0 when there is no positive cost to divide by. */
  function Ratio(pnl: real, cost: real): (r: real)
    ensures cost > 0.0 ==> r * cost == pnl
    ensures cost <= 0.0 ==> r == 0.0
  {
    if cost > 0.0 then pnl / cost else 0.0
  }

  /** One trade valued at its market's live price. */
  function ValueTrade(t: TradeRow, price: PriceFn): (v: ValuedTrade)
    ensures v.row == t
    ensures v.priceNow == SidePrice(t.side, RowPYes(t, price))
    ensures v.value == CurrentValue(t, price) && v.pnl == v.value - t.cost
    ensures t.cost > 0.0 ==> v.pct * t.cost == v.pnl
    ensures t.cost <= 0.0 ==> v.pct == 0.0
  {
    var pYes := price(t.qYes, t.qNo, t.b);
    var priceNow := if t.side == Yes then pYes else 1.0 - pYes;
    var value := t.shares * priceNow;
    var pnl := value - t.cost;
    ValuedTrade(t, priceNow, value, pnl, Ratio(pnl, t.cost))
  }

  /** The `trades` array: every row valued, in the rows' order. */
  function ValueTrades(rows: seq<TradeRow>, price: PriceFn): (ts: seq<ValuedTrade>)
    ensures |ts| == |rows|
    ensures forall i :: 0 <= i < |rows| ==> ts[i] == ValueTrade(rows[i], price)
  {
    seq(|rows|, i requires 0 <= i < |rows| => ValueTrade(rows[i], price))
  }

  function Rows(ts: seq<ValuedTrade>): (rows: seq<TradeRow>)
    ensures |rows| == |ts|
    ensures forall i :: 0 <= i < |ts| ==> rows[i] == ts[i].row
  {
    seq(|ts|, i requires 0 <= i < |ts| => ts[i].row)
  }

  lemma RowsSnoc(ts: seq<ValuedTrade>, t: ValuedTrade)
    ensures Rows(ts + [t]) == Rows(ts) + [t.row]
  {
  }

  lemma RowsOfValued(rows: seq<TradeRow>, price: PriceFn)
    ensures Rows(ValueTrades(rows, price)) == rows
  {
  }

  function TradeTime(t: ValuedTrade): int {
    t.row.createdAt
  }

  /** Valuing the rows keeps their newest-first order. */
  lemma ValueTradesKeepOrder(rows: seq<TradeRow>, price: PriceFn)
    requires SortedDesc(rows, RowTime)
    ensures SortedDesc(ValueTrades(rows, price), TradeTime)
  {
  }

  /**
   * Every trade carries its market's current columns and its side's live price: what the
   * handler's rows satisfy.
   */
  ghost predicate Live(ts: seq<ValuedTrade>, markets: seq<Market>, price: PriceFn) {
    forall t :: t in ts ==> RowMatches(markets, t.row) && t.priceNow == SidePrice(t.row.side, RowPYes(t.row, price))
  }

  lemma ValuedAreLive(rows: seq<TradeRow>, markets: seq<Market>, price: PriceFn)
    requires JoinedFrom(rows, markets)
    ensures Live(ValueTrades(rows, price), markets, price)
  {
    forall t | t in ValueTrades(rows, price)
      ensures RowMatches(markets, t.row)
    {
      var i :| 0 <= i < |rows| && ValueTrades(rows, price)[i] == t;
      assert rows[i] in rows;
    }
  }

  lemma LiveRowsJoined(ts: seq<ValuedTrade>, markets: seq<Market>, price: PriceFn)
    requires Live(ts, markets, price)
    ensures JoinedFrom(Rows(ts), markets)
  {
    forall x | x in Rows(ts) ensures RowMatches(markets, x) {
      var i :| 0 <= i < |Rows(ts)| && Rows(ts)[i] == x;
      assert ts[i] in ts;
    }
  }

  /** The YES price a market's first trade implies: its own price, or one minus it for NO. */
  function InitPriceYes(t: ValuedTrade): real {
    if t.row.side == Yes then t.priceNow else 1.0 - t.priceNow
  }

  /**
   * The YES price the fold keeps for market `m`: set from the market's first trade, and
   * replaced by the price of every later YES trade.
   */
  function PriceYesOf(ts: seq<ValuedTrade>, m: MarketId): real
    requires HasMarket(Rows(ts), m)
    decreases |ts|
  {
    var init, t := ts[..|ts| - 1], ts[|ts| - 1];
    if t.row.marketId == m && t.row.side == Yes then t.priceNow
    else if HasMarket(Rows(init), m) then PriceYesOf(init, m)
    else InitPriceYes(t)
  }

  lemma PriceYesOfSnoc(ts: seq<ValuedTrade>, t: ValuedTrade, m: MarketId)
    requires HasMarket(Rows(ts + [t]), m)
    ensures PriceYesOf(ts + [t], m) ==
      if t.row.marketId == m && t.row.side == Yes then t.priceNow
      else if HasMarket(Rows(ts), m) then PriceYesOf(ts, m)
      else InitPriceYes(t)
  {
    assert (ts + [t])[..|ts|] == ts;
  }

  /** Whichever side a market's first trade was on, the kept YES price is the market's live price. */
  lemma {:induction false} PriceYesLive(ts: seq<ValuedTrade>, m: MarketId, markets: seq<Market>, price: PriceFn)
    requires Live(ts, markets, price) && HasMarket(Rows(ts), m)
    ensures PriceYesOf(ts, m) == LivePrice(markets, m, price)
    decreases |ts|
  {
    var init, t := ts[..|ts| - 1], ts[|ts| - 1];
    assert ts == init + [t];
    RowsSnoc(init, t);
    HasMarketSnoc(Rows(init), t.row, m);
    assert t in ts;
    assert RowMatches(markets, t.row);
    if t.row.marketId == m && t.row.side == Yes {
    } else if HasMarket(Rows(init), m) {
      assert forall x :: x in init ==> x in ts;
      PriceYesLive(init, m, markets, price);
    } else {
      assert 1.0 - (1.0 - RowPYes(t.row, price)) == RowPYes(t.row, price);
    }
  }

  // ----- Aggregation into one position per market -----

  datatype PosEntry = PosEntry(marketId: MarketId, question: string, sharesYes: real, sharesNo: real, cost: real, priceYes: real)

  /**
   * What the fold holds for market `m`: the question of its first trade, its YES shares,
   * its NO shares and its cost summed, and the kept YES price.
   */
  function PosEntryFor(ts: seq<ValuedTrade>, m: MarketId): PosEntry
    requires HasMarket(Rows(ts), m)
  {
    var rows := Rows(ts);
    PosEntry(m, FirstOf(rows, m).question, SumIn(rows, m, YesShares), SumIn(rows, m, NoShares), SumIn(rows, m, Cost), PriceYesOf(ts, m))
  }

  /** One position per distinct market, in the order of each market's first trade. */
  function EntriesFor(ts: seq<ValuedTrade>): (es: seq<PosEntry>)
    ensures |es| == |MarketsInOrder(Rows(ts))|
    ensures forall i :: 0 <= i < |es| ==> es[i].marketId == MarketsInOrder(Rows(ts))[i]
  {
    var ids := MarketsInOrder(Rows(ts));
    seq(|ids|, i requires 0 <= i < |ids| => PosEntryFor(ts, ids[i]))
  }

  /** The entry a first trade opens. */
  function Opened(t: ValuedTrade): PosEntry {
    PosEntry(t.row.marketId, t.row.question, 0.0, 0.0, 0.0, InitPriceYes(t))
  }

  /** One more trade: its side's shares and its cost added; a YES trade resets the price. */
  function PosStep(e: PosEntry, t: ValuedTrade): PosEntry {
    PosEntry(e.marketId, e.question, e.sharesYes + YesShares(t.row), e.sharesNo + NoShares(t.row),
      e.cost + t.row.cost, if t.row.side == Yes then t.priceNow else e.priceYes)
  }

  lemma PosEntryForSnoc(ts: seq<ValuedTrade>, t: ValuedTrade, m: MarketId)
    requires HasMarket(Rows(ts + [t]), m)
    ensures t.row.marketId != m ==> HasMarket(Rows(ts), m) && PosEntryFor(ts + [t], m) == PosEntryFor(ts, m)
    ensures t.row.marketId == m ==>
      PosEntryFor(ts + [t], m) == PosStep(if HasMarket(Rows(ts), m) then PosEntryFor(ts, m) else Opened(t), t)
  {
    RowsSnoc(ts, t);
    var rows := Rows(ts);
    HasMarketSnoc(rows, t.row, m);
    FirstOfSnoc(rows, t.row, m);
    PriceYesOfSnoc(ts, t, m);
    SumInSnoc(rows, t.row, m, YesShares);
    SumInSnoc(rows, t.row, m, NoShares);
    SumInSnoc(rows, t.row, m, Cost);
    if !HasMarket(rows, m) {
      SumInAbsent(rows, m, YesShares);
      SumInAbsent(rows, m, NoShares);
      SumInAbsent(rows, m, Cost);
    }
  }

  ghost predicate Aggregated(posMap: OrderedMap<MarketId, PosEntry>, ts: seq<ValuedTrade>) {
    && posMap.Valid()
    && posMap.keys == MarketsInOrder(Rows(ts))
    && forall m :: m in posMap.entries ==> HasMarket(Rows(ts), m) && posMap.entries[m] == PosEntryFor(ts, m)
  }

  lemma AggregateStep(posMap: OrderedMap<MarketId, PosEntry>, ts: seq<ValuedTrade>, t: ValuedTrade)
    requires Aggregated(posMap, ts)
    ensures Aggregated(posMap.Put(t.row.marketId, PosStep(posMap.Get(t.row.marketId).GetOr(Opened(t)), t)), ts + [t])
  {
    var next := posMap.Put(t.row.marketId, PosStep(posMap.Get(t.row.marketId).GetOr(Opened(t)), t));
    RowsSnoc(ts, t);
    MarketsInOrderSnoc(Rows(ts), t.row);
    HasMarketSnoc(Rows(ts), t.row, t.row.marketId);
    forall m | m in next.entries
      ensures HasMarket(Rows(ts + [t]), m) && next.entries[m] == PosEntryFor(ts + [t], m)
    {
      HasMarketSnoc(Rows(ts), t.row, m);
      PosEntryForSnoc(ts, t, m);
    }
  }

  /** The posMap update for one trade. */
  method Absorb(posMap: OrderedMap<MarketId, PosEntry>, ghost done: seq<ValuedTrade>, t: ValuedTrade)
    returns (next: OrderedMap<MarketId, PosEntry>)
    requires Aggregated(posMap, done)
    ensures Aggregated(next, done + [t])
  {
    var key := t.row.marketId;
    var existing := posMap.Get(key).GetOr(
      PosEntry(t.row.marketId, t.row.question, 0.0, 0.0, 0.0, if t.row.side == Yes then t.priceNow else 1.0 - t.priceNow));
    if t.row.side == Yes {
      existing := existing.(sharesYes := existing.sharesYes + t.row.shares);
    } else {
      existing := existing.(sharesNo := existing.sharesNo + t.row.shares);
    }
    existing := existing.(cost := existing.cost + t.row.cost);
    existing := existing.(priceYes := if t.row.side == Yes then t.priceNow else existing.priceYes);
    assert existing == PosStep(posMap.Get(key).GetOr(Opened(t)), t);
    AggregateStep(posMap, done, t);
    next := posMap.Put(key, existing);
  }

  /** The posMap loop over the valued trades, newest first. */
  method AggregatePositions(ts: seq<ValuedTrade>) returns (posMap: OrderedMap<MarketId, PosEntry>)
    ensures Aggregated(posMap, ts)
    ensures posMap.Values() == EntriesFor(ts)
  {
    posMap := EmptyMap();
    for i := 0 to |ts|
      invariant Aggregated(posMap, ts[..i])
    {
      assert ts[..i + 1] == ts[..i] + [ts[i]];
      posMap := Absorb(posMap, ts[..i], ts[i]);
    }
    assert ts[..|ts|] == ts;
    AggregatedValues(posMap, ts);
  }

  lemma AggregatedValues(posMap: OrderedMap<MarketId, PosEntry>, ts: seq<ValuedTrade>)
    requires Aggregated(posMap, ts)
    ensures posMap.Values() == EntriesFor(ts)
  {
  }

  // ----- Position valuation and the total -----

  datatype Position = Position(entry: PosEntry, value: real, pnl: real, pct: real)

  /** A position valued: YES shares at its YES price, NO shares at one minus it; pnl against its cost. */
  function ValuePosition(e: PosEntry): (p: Position)
    ensures p.entry == e
    ensures p.value == MarkValue(e.sharesYes, e.sharesNo, e.priceYes) && p.pnl == p.value - e.cost
    ensures e.cost > 0.0 ==> p.pct * e.cost == p.pnl
    ensures e.cost <= 0.0 ==> p.pct == 0.0
  {
    var priceYes := e.priceYes;
    var priceNo := 1.0 - priceYes;
    var value := e.sharesYes * priceYes + e.sharesNo * priceNo;
    var pnl := value - e.cost;
    Position(e, value, pnl, Ratio(pnl, e.cost))
  }

  function ValuePositions(es: seq<PosEntry>): (ps: seq<Position>)
    ensures |ps| == |es|
    ensures forall i :: 0 <= i < |es| ==> ps[i] == ValuePosition(es[i])
  {
    seq(|es|, i requires 0 <= i < |es| => ValuePosition(es[i]))
  }

  /** positions.reduce((sum, p) => sum + p.pnl, 0). */
  function TotalPnl(ps: seq<Position>): (total: real)
    // when every position's pnl is its value minus its cost, the total is all value minus all cost
    ensures (forall i :: 0 <= i < |ps| ==> ps[i].pnl == ps[i].value - ps[i].entry.cost) ==>
      total == TotalValue(ps) - TotalCost(ps)
    decreases |ps|
  {
    if ps == [] then 0.0
    else
      assert forall i :: 0 <= i < |ps| - 1 ==> ps[..|ps| - 1][i] == ps[i];
      TotalPnl(ps[..|ps| - 1]) + ps[|ps| - 1].pnl
  }

  function TotalValue(ps: seq<Position>): real
    decreases |ps|
  {
    if ps == [] then 0.0 else TotalValue(ps[..|ps| - 1]) + ps[|ps| - 1].value
  }

  function TotalCost(ps: seq<Position>): real
    decreases |ps|
  {
    if ps == [] then 0.0 else TotalCost(ps[..|ps| - 1]) + ps[|ps| - 1].entry.cost
  }

  function SumEntries(es: seq<PosEntry>, g: PosEntry -> real): real
    decreases |es|
  {
    if es == [] then 0.0 else SumEntries(es[..|es| - 1], g) + g(es[|es| - 1])
  }

  function EntryYes(e: PosEntry): real { e.sharesYes }
  function EntryNo(e: PosEntry): real { e.sharesNo }
  function EntryCost(e: PosEntry): real { e.cost }

  lemma {:induction false} EntrySums(ids: seq<MarketId>, ts: seq<ValuedTrade>)
    requires forall m :: m in ids ==> HasMarket(Rows(ts), m)
    ensures var es := seq(|ids|, i requires 0 <= i < |ids| => PosEntryFor(ts, ids[i]));
      && SumEntries(es, EntryYes) == SumByMarket(ids, Rows(ts), YesShares)
      && SumEntries(es, EntryNo) == SumByMarket(ids, Rows(ts), NoShares)
      && SumEntries(es, EntryCost) == SumByMarket(ids, Rows(ts), Cost)
    decreases |ids|
  {
    if ids != [] {
      var init := ids[..|ids| - 1];
      var es := seq(|ids|, i requires 0 <= i < |ids| => PosEntryFor(ts, ids[i]));
      assert es[..|es| - 1] == seq(|init|, i requires 0 <= i < |init| => PosEntryFor(ts, init[i]));
      EntrySums(init, ts);
    }
  }

  /** Summed over all positions, YES shares, NO shares and cost equal their sums over all trades. */
  lemma PositionTotals(ts: seq<ValuedTrade>)
    ensures SumEntries(EntriesFor(ts), EntryYes) == SumAll(Rows(ts), YesShares)
    ensures SumEntries(EntriesFor(ts), EntryNo) == SumAll(Rows(ts), NoShares)
    ensures SumEntries(EntriesFor(ts), EntryCost) == SumAll(Rows(ts), Cost)
  {
    var ids := MarketsInOrder(Rows(ts));
    EntrySums(ids, ts);
    Partition(Rows(ts), YesShares);
    Partition(Rows(ts), NoShares);
    Partition(Rows(ts), Cost);
  }

  lemma {:induction false} PnlByMarket(ids: seq<MarketId>, ts: seq<ValuedTrade>, markets: seq<Market>, price: PriceFn)
    requires Live(ts, markets, price)
    requires forall m :: m in ids ==> HasMarket(Rows(ts), m)
    ensures TotalPnl(ValuePositions(seq(|ids|, i requires 0 <= i < |ids| => PosEntryFor(ts, ids[i]))))
      == LiveMark(ids, Rows(ts), markets, price) - SumByMarket(ids, Rows(ts), Cost)
    decreases |ids|
  {
    if ids != [] {
      var init, m := ids[..|ids| - 1], ids[|ids| - 1];
      var ps := ValuePositions(seq(|ids|, i requires 0 <= i < |ids| => PosEntryFor(ts, ids[i])));
      assert ps[..|ps| - 1] == ValuePositions(seq(|init|, i requires 0 <= i < |init| => PosEntryFor(ts, init[i])));
      PnlByMarket(init, ts, markets, price);
      PriceYesLive(ts, m, markets, price);
    }
  }

  /** The total pnl is the live value of every trade minus the cost of every trade. */
  lemma TotalPnlIsValueMinusCost(ts: seq<ValuedTrade>, markets: seq<Market>, price: PriceFn)
    requires Live(ts, markets, price)
    ensures TotalPnl(ValuePositions(EntriesFor(ts))) == SumAll(Rows(ts), ValueAt(price)) - SumAll(Rows(ts), Cost)
  {
    var ids := MarketsInOrder(Rows(ts));
    PnlByMarket(ids, ts, markets, price);
    LiveRowsJoined(ts, markets, price);
    LiveMarkIsSumOfValues(Rows(ts), markets, price);
    Partition(Rows(ts), Cost);
  }

  // ----- The pnl series -----

  datatype Holding = Holding(yes: real, no: real, priceYes: real)

  datatype Point = Point(t: Instant, pnl: real)

  function PointTime(p: Point): int {
    p.t
  }

  /** What the replay holds for market `m` after the trades `ts`. */
  function HoldingFor(ts: seq<ValuedTrade>, m: MarketId): Holding
    requires HasMarket(Rows(ts), m)
  {
    Holding(SumIn(Rows(ts), m, YesShares), SumIn(Rows(ts), m, NoShares), PriceYesOf(ts, m))
  }

  /** The replay's holdings after the trades `ts`, in the order markets first appeared. */
  function Holdings(ts: seq<ValuedTrade>): (hs: seq<Holding>)
    ensures |hs| == |MarketsInOrder(Rows(ts))|
  {
    var ids := MarketsInOrder(Rows(ts));
    seq(|ids|, i requires 0 <= i < |ids| => HoldingFor(ts, ids[i]))
  }

  function MarkOfHoldings(hs: seq<Holding>): real
    decreases |hs|
  {
    if hs == [] then 0.0
    else
      var h := hs[|hs| - 1];
      MarkOfHoldings(hs[..|hs| - 1]) + MarkValue(h.yes, h.no, h.priceYes)
  }

  /** The point recorded after the last of `asc`: stamped with its time, all holdings marked, minus all cost. */
  function PointAfter(asc: seq<ValuedTrade>): Point
    requires asc != []
  {
    Point(asc[|asc| - 1].row.createdAt, MarkOfHoldings(Holdings(asc)) - SumAll(Rows(asc), Cost))
  }

  /** One point per trade of `asc`, in its order. */
  function Series(asc: seq<ValuedTrade>): (ps: seq<Point>)
    ensures |ps| == |asc|
    decreases |asc|
  {
    if asc == [] then [] else Series(asc[..|asc| - 1]) + [PointAfter(asc)]
  }

  /** Point k is stamped with trade k's time and accounts for the first k + 1 trades. */
  lemma {:induction false} SeriesAt(asc: seq<ValuedTrade>, k: nat)
    requires k < |asc|
    ensures Series(asc)[k] == PointAfter(asc[..k + 1])
    ensures Series(asc)[k].t == asc[k].row.createdAt
    decreases |asc|
  {
    if k < |asc| - 1 {
      var init := asc[..|asc| - 1];
      SeriesAt(init, k);
      assert init[..k + 1] == asc[..k + 1];
    } else {
      assert asc[..k + 1] == asc;
    }
  }

  lemma HoldingStepFor(ts: seq<ValuedTrade>, t: ValuedTrade, m: MarketId)
    requires HasMarket(Rows(ts + [t]), m)
    ensures t.row.marketId != m ==> HasMarket(Rows(ts), m) && HoldingFor(ts + [t], m) == HoldingFor(ts, m)
    ensures t.row.marketId == m ==>
      HoldingFor(ts + [t], m) == HoldStep(if HasMarket(Rows(ts), m) then HoldingFor(ts, m) else Holding(0.0, 0.0, InitPriceYes(t)), t)
  {
    PosEntryForSnoc(ts, t, m);
  }

  /** One more trade in the replay: its side's shares added; a YES trade resets the price. */
  function HoldStep(h: Holding, t: ValuedTrade): Holding {
    Holding(h.yes + YesShares(t.row), h.no + NoShares(t.row), if t.row.side == Yes then t.priceNow else h.priceYes)
  }

  ghost predicate Replayed(holdings: OrderedMap<MarketId, Holding>, ts: seq<ValuedTrade>) {
    && holdings.Valid()
    && holdings.keys == MarketsInOrder(Rows(ts))
    && forall m :: m in holdings.entries ==> HasMarket(Rows(ts), m) && holdings.entries[m] == HoldingFor(ts, m)
  }

  lemma ReplayStep(holdings: OrderedMap<MarketId, Holding>, ts: seq<ValuedTrade>, t: ValuedTrade)
    requires Replayed(holdings, ts)
    ensures Replayed(holdings.Put(t.row.marketId, HoldStep(holdings.Get(t.row.marketId).GetOr(Holding(0.0, 0.0, InitPriceYes(t))), t)), ts + [t])
  {
    var next := holdings.Put(t.row.marketId, HoldStep(holdings.Get(t.row.marketId).GetOr(Holding(0.0, 0.0, InitPriceYes(t))), t));
    RowsSnoc(ts, t);
    MarketsInOrderSnoc(Rows(ts), t.row);
    HasMarketSnoc(Rows(ts), t.row, t.row.marketId);
    forall m | m in next.entries
      ensures HasMarket(Rows(ts + [t]), m) && next.entries[m] == HoldingFor(ts + [t], m)
    {
      HasMarketSnoc(Rows(ts), t.row, m);
      HoldingStepFor(ts, t, m);
    }
  }

  lemma SeriesSnoc(ts: seq<ValuedTrade>, t: ValuedTrade)
    ensures Series(ts + [t]) == Series(ts) + [PointAfter(ts + [t])]
  {
    assert (ts + [t])[..|ts|] == ts;
  }

  lemma PointAfterSnoc(ts: seq<ValuedTrade>, t: ValuedTrade)
    ensures PointAfter(ts + [t]) == Point(t.row.createdAt, MarkOfHoldings(Holdings(ts + [t])) - SumAll(Rows(ts + [t]), Cost))
  {
  }

  lemma CostSnoc(ts: seq<ValuedTrade>, t: ValuedTrade)
    ensures SumAll(Rows(ts + [t]), Cost) == SumAll(Rows(ts), Cost) + t.row.cost
  {
    RowsSnoc(ts, t);
    SumAllSnoc(Rows(ts), t.row, Cost);
  }

  lemma ReplayedValues(holdings: OrderedMap<MarketId, Holding>, ts: seq<ValuedTrade>)
    requires Replayed(holdings, ts)
    ensures holdings.Values() == Holdings(ts)
  {
  }

  /** One replayed trade extends the series by its point and the cost by its cost. */
  lemma SeriesStep(done: seq<ValuedTrade>, t: ValuedTrade, points: seq<Point>, totalCost: real, mark: real)
    requires points == Series(done) && totalCost == SumAll(Rows(done), Cost)
    requires mark == MarkOfHoldings(Holdings(done + [t]))
    ensures totalCost + t.row.cost == SumAll(Rows(done + [t]), Cost)
    ensures points + [Point(t.row.createdAt, mark - (totalCost + t.row.cost))] == Series(done + [t])
  {
    CostSnoc(done, t);
    PointAfterSnoc(done, t);
    SeriesSnoc(done, t);
  }

  /** The mark loop over the holdings, in the map's order. */
  method MarkHoldings(values: seq<Holding>) returns (mark: real)
    ensures mark == MarkOfHoldings(values)
  {
    mark := 0.0;
    for j := 0 to |values|
      invariant mark == MarkOfHoldings(values[..j])
    {
      assert values[..j + 1][..j] == values[..j];
      var h := values[j];
      var pYes := h.priceYes;
      var pNo := 1.0 - pYes;
      mark := mark + (h.yes * pYes + h.no * pNo);
    }
    assert values[..|values|] == values;
  }

  /** The holdings update for one replayed trade: its side's shares added; a YES trade resets the price. */
  method Hold(holdings: OrderedMap<MarketId, Holding>, ghost done: seq<ValuedTrade>, t: ValuedTrade)
    returns (next: OrderedMap<MarketId, Holding>)
    requires Replayed(holdings, done)
    ensures Replayed(next, done + [t])
    ensures next.Values() == Holdings(done + [t])
  {
    var m := holdings.Get(t.row.marketId).GetOr(
      Holding(0.0, 0.0, if t.row.side == Yes then t.priceNow else 1.0 - t.priceNow));
    if t.row.side == Yes {
      m := m.(yes := m.yes + t.row.shares);
      m := m.(priceYes := t.priceNow);
    } else {
      m := m.(no := m.no + t.row.shares);
    }
    assert m == HoldStep(holdings.Get(t.row.marketId).GetOr(Holding(0.0, 0.0, InitPriceYes(t))), t);
    ReplayStep(holdings, done, t);
    next := holdings.Put(t.row.marketId, m);
    ReplayedValues(next, done + [t]);
  }

  /** The replay's state after the trades `done`: their holdings, their points and their cost. */
  ghost predicate ReplayedUpTo(holdings: OrderedMap<MarketId, Holding>, points: seq<Point>, totalCost: real, done: seq<ValuedTrade>) {
    && Replayed(holdings, done)
    && totalCost == SumAll(Rows(done), Cost)
    && points == Series(done)
  }

  /** One turn of the replay: the trade's holding updated, the mark recomputed, one point appended. */
  method ReplayTrade(holdings: OrderedMap<MarketId, Holding>, points: seq<Point>, totalCost: real,
                     ghost done: seq<ValuedTrade>, t: ValuedTrade)
    returns (holdings': OrderedMap<MarketId, Holding>, points': seq<Point>, totalCost': real)
    requires ReplayedUpTo(holdings, points, totalCost, done)
    ensures ReplayedUpTo(holdings', points', totalCost', done + [t])
  {
    holdings' := Hold(holdings, done, t);
    var mark := MarkHoldings(holdings'.Values());
    SeriesStep(done, t, points, totalCost, mark);
    totalCost' := totalCost + t.row.cost;
    points' := points + [Point(t.row.createdAt, mark - totalCost')];
  }

  /** The state after the first k trades and then trade k is the state after the first k + 1. */
  lemma ReplayedUpToNext(holdings: OrderedMap<MarketId, Holding>, points: seq<Point>, totalCost: real,
                         asc: seq<ValuedTrade>, k: nat)
    requires k < |asc|
    requires ReplayedUpTo(holdings, points, totalCost, asc[..k] + [asc[k]])
    ensures ReplayedUpTo(holdings, points, totalCost, asc[..k + 1])
  {
    assert asc[..k + 1] == asc[..k] + [asc[k]];
  }

  /**
   * The replay: the newest-first trades reversed, and after each trade one point holding
   * the mark of all holdings so far minus the cost so far.
   */
  method ReplayPnl(ts: seq<ValuedTrade>) returns (points: seq<Point>)
    ensures points == Series(Reverse(ts))
  {
    var tradesAsc := Reverse(ts);
    points := [];
    var totalCost := 0.0;
    var holdings: OrderedMap<MarketId, Holding> := EmptyMap();
    for k := 0 to |tradesAsc|
      invariant ReplayedUpTo(holdings, points, totalCost, tradesAsc[..k])
    {
      var t := tradesAsc[k];
      holdings, points, totalCost := ReplayTrade(holdings, points, totalCost, tradesAsc[..k], t);
      ReplayedUpToNext(holdings, points, totalCost, tradesAsc, k);
    }
    assert tradesAsc[..|tradesAsc|] == tradesAsc;
  }

  lemma {:induction false} HoldingsMark(ids: seq<MarketId>, ts: seq<ValuedTrade>, markets: seq<Market>, price: PriceFn)
    requires Live(ts, markets, price)
    requires forall m :: m in ids ==> HasMarket(Rows(ts), m)
    ensures MarkOfHoldings(seq(|ids|, i requires 0 <= i < |ids| => HoldingFor(ts, ids[i])))
      == LiveMark(ids, Rows(ts), markets, price)
    decreases |ids|
  {
    if ids != [] {
      var init, m := ids[..|ids| - 1], ids[|ids| - 1];
      var hs := seq(|ids|, i requires 0 <= i < |ids| => HoldingFor(ts, ids[i]));
      assert hs[..|hs| - 1] == seq(|init|, i requires 0 <= i < |init| => HoldingFor(ts, init[i]));
      HoldingsMark(init, ts, markets, price);
      PriceYesLive(ts, m, markets, price);
    }
  }

  /** At live prices, a point's pnl is the value of the trades so far minus their cost. */
  lemma PointAfterLive(asc: seq<ValuedTrade>, markets: seq<Market>, price: PriceFn)
    requires asc != [] && Live(asc, markets, price)
    ensures PointAfter(asc).pnl == SumAll(Rows(asc), ValueAt(price)) - SumAll(Rows(asc), Cost)
  {
    HoldingsMark(MarketsInOrder(Rows(asc)), asc, markets, price);
    LiveRowsJoined(asc, markets, price);
    LiveMarkIsSumOfValues(Rows(asc), markets, price);
  }

  /** Every point of the series is the cumulative value minus the cumulative cost of the trades up to it. */
  lemma SeriesLive(asc: seq<ValuedTrade>, k: nat, markets: seq<Market>, price: PriceFn)
    requires k < |asc| && Live(asc, markets, price)
    ensures Series(asc)[k].pnl == SumAll(Rows(asc[..k + 1]), ValueAt(price)) - SumAll(Rows(asc[..k + 1]), Cost)
  {
    SeriesAt(asc, k);
    assert forall t :: t in asc[..k + 1] ==> t in asc;
    PointAfterLive(asc[..k + 1], markets, price);
  }

  lemma RowsReverse(ts: seq<ValuedTrade>)
    ensures Rows(Reverse(ts)) == Reverse(Rows(ts))
  {
    forall i | 0 <= i < |ts| ensures Rows(Reverse(ts))[i] == Reverse(Rows(ts))[i] {
      ReverseAt(ts, i);
      ReverseAt(Rows(ts), i);
    }
  }

  lemma LiveReverse(ts: seq<ValuedTrade>, markets: seq<Market>, price: PriceFn)
    requires Live(ts, markets, price)
    ensures Live(Reverse(ts), markets, price)
  {
    ReverseMultiset(ts);
    forall t | t in Reverse(ts) ensures t in ts {
      assert t in multiset(Reverse(ts));
    }
  }

  /** Reversing the trades changes neither their total value nor their total cost. */
  lemma ReverseSums(ts: seq<ValuedTrade>, price: PriceFn)
    ensures SumAll(Rows(Reverse(ts)), ValueAt(price)) == SumAll(Rows(ts), ValueAt(price))
    ensures SumAll(Rows(Reverse(ts)), Cost) == SumAll(Rows(ts), Cost)
  {
    RowsReverse(ts);
    ReverseMultiset(Rows(ts));
    SumAllPermutation(Rows(Reverse(ts)), Rows(ts), ValueAt(price));
    SumAllPermutation(Rows(Reverse(ts)), Rows(ts), Cost);
  }

  /** The last point accounts for every trade. */
  lemma LastPoint(asc: seq<ValuedTrade>, markets: seq<Market>, price: PriceFn)
    requires asc != [] && Live(asc, markets, price)
    ensures Series(asc)[|asc| - 1].pnl == SumAll(Rows(asc), ValueAt(price)) - SumAll(Rows(asc), Cost)
  {
    SeriesAt(asc, |asc| - 1);
    assert asc[..|asc|] == asc;
    PointAfterLive(asc, markets, price);
  }

  /** With at least one trade, the series ends at the total pnl of the positions. */
  lemma LastPointIsTotal(ts: seq<ValuedTrade>, markets: seq<Market>, price: PriceFn)
    requires ts != [] && Live(ts, markets, price)
    ensures Series(Reverse(ts))[|ts| - 1].pnl == TotalPnl(ValuePositions(EntriesFor(ts)))
  {
    LiveReverse(ts, markets, price);
    LastPoint(Reverse(ts), markets, price);
    ReverseSums(ts, price);
    TotalPnlIsValueMinusCost(ts, markets, price);
  }

  /** Newest-first trades give a series in ascending time. */
  lemma SeriesAscending(ts: seq<ValuedTrade>)
    requires SortedDesc(ts, TradeTime)
    ensures SortedAsc(Series(Reverse(ts)), PointTime)
  {
    var asc := Reverse(ts);
    ReverseOfDescIsAsc(ts, TradeTime);
    forall k | 0 <= k < |asc| ensures Series(asc)[k].t == asc[k].row.createdAt {
      SeriesAt(asc, k);
    }
  }
}
