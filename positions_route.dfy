/**
 * GET /api/positions: bootstrap the account, then report the user's trades in the chosen
 * time range, the positions they add up to, the pnl total and the pnl series, and the balance.
 */
module PositionsRoute {
  import opened Wrappers
  import opened Records
  import opened Folds
  import opened Ordering
  import opened Text
  import opened Db
  import opened Valuation
  import opened Positions

  datatype Interval = OneDay | SevenDays | OneMonth

  /**
   * NOW() - interval for each of the three intervals, as the store computes them: '1 day',
   * '7 days' and '1 month' are calendar spans in the session's time zone, so their length
   * in microseconds depends on the date and on daylight-saving changes.
   */
  datatype Clock = Clock(oneDayAgo: Instant, sevenDaysAgo: Instant, oneMonthAgo: Instant)

  /** The range parameter, "ALL" when absent, upper-cased. */
  function RangeOf(param: Option<string>): (range: string)
    ensures param.None? ==> range == "ALL"
    ensures |range| == |param.GetOr("ALL")|
    // no lower-case letter is left, and every character is kept or is its letter's capital
    ensures forall i :: 0 <= i < |range| ==> !('a' <= range[i] <= 'z')
    ensures forall i :: 0 <= i < |range| ==>
      range[i] == param.GetOr("ALL")[i] || range[i] as int + 32 == param.GetOr("ALL")[i] as int
  {
    AsciiUpper(param.GetOr("ALL"))
  }

  /** The range table: three ranges have an interval, every other value has none. */
  function IntervalOf(range: string): (iv: Option<Interval>)
    ensures iv == Some(OneDay) <==> range == "1D"
    ensures iv == Some(SevenDays) <==> range == "1W"
    ensures iv == Some(OneMonth) <==> range == "1M"
    ensures iv.None? <==> range !in {"1D", "1W", "1M"}
  {
    if range == "1D" then Some(OneDay)
    else if range == "1W" then Some(SevenDays)
    else if range == "1M" then Some(OneMonth)
    else None
  }

  /** NOW() - interval. */
  function Since(clock: Clock, iv: Interval): Instant {
    match iv
    case OneDay => clock.oneDayAgo
    case SevenDays => clock.sevenDaysAgo
    case OneMonth => clock.oneMonthAgo
  }

  /** The earliest created_at the query keeps, or None when it applies no time filter. */
  function Window(range: string, clock: Clock): (since: Option<Instant>)
    ensures since.Some? <==> range in {"1D", "1W", "1M"}
    ensures range == "1D" ==> since == Some(clock.oneDayAgo)
    ensures range == "1W" ==> since == Some(clock.sevenDaysAgo)
    ensures range == "1M" ==> since == Some(clock.oneMonthAgo)
  {
    match IntervalOf(range)
    case Some(iv) => Some(Since(clock, iv))
    case None => None
  }

  /** A two-character string upper-cases to a digit followed by a capital letter exactly when it is that, in either case. */
  lemma UpperDigitLetter(s: string, d: char, c: char)
    requires '0' <= d <= '9' && 'A' <= c <= 'Z'
    ensures AsciiUpper(s) == [d, c] <==> s == [d, c] || s == [d, (c as int + 32) as char]
  {
    if AsciiUpper(s) == [d, c] {
      assert UpperChar(s[0]) == d && UpperChar(s[1]) == c;
      assert s == [s[0], s[1]];
    }
  }

  /**
   * The range is matched without regard to case: "1d" and "1D" keep one day of trades, and
   * so on; an absent range reads "ALL"; any other value keeps every trade.
   */
  lemma RangeMapping(param: Option<string>)
    ensures IntervalOf(RangeOf(param)) == Some(OneDay) <==> param == Some("1D") || param == Some("1d")
    ensures IntervalOf(RangeOf(param)) == Some(SevenDays) <==> param == Some("1W") || param == Some("1w")
    ensures IntervalOf(RangeOf(param)) == Some(OneMonth) <==> param == Some("1M") || param == Some("1m")
    ensures param.None? ==> RangeOf(param) == "ALL" && IntervalOf(RangeOf(param)).None?
  {
    var s := param.GetOr("ALL");
    UpperDigitLetter(s, '1', 'D');
    UpperDigitLetter(s, '1', 'W');
    UpperDigitLetter(s, '1', 'M');
    assert "1D" == ['1', 'D'] && "1d" == ['1', 'd'];
    assert "1W" == ['1', 'W'] && "1w" == ['1', 'w'];
    assert "1M" == ['1', 'M'] && "1m" == ['1', 'm'];
    if param.None? {
      assert AsciiUpper("ALL") == "ALL";
    }
  }

  datatype Report = Report(
    range: string, balance: real, trades: seq<ValuedTrade>, positions: seq<Position>, total: real, points: seq<Point>)

  /** The user's joined trades in the window, newest first. */
  function NewestFirst(db: Tables, user: UserId, since: Option<Instant>): (rows: seq<TradeRow>)
    ensures SortedDesc(rows, RowTime)
    ensures multiset(rows) == multiset(UserRows(db.trades, db.markets, user, since))
    ensures JoinedFrom(rows, db.markets)
  {
    var rows := SortDesc(UserRows(db.trades, db.markets, user, since), RowTime);
    JoinedFromPermutation(UserRows(db.trades, db.markets, user, since), rows, db.markets);
    rows
  }

  /**
   * What the response promises about itself, for newest-first joined rows valued at live prices:
   * the total is their value minus their cost, there is one point per trade, the last point
   * carries the total, and the points run oldest first.
   */
  lemma ReportConsistent(rows: seq<TradeRow>, markets: seq<Market>, price: PriceFn)
    requires JoinedFrom(rows, markets) && SortedDesc(rows, RowTime)
    ensures var trades := ValueTrades(rows, price);
      var points := Series(Reverse(trades));
      var total := TotalPnl(ValuePositions(EntriesFor(trades)));
      && total == SumAll(rows, ValueAt(price)) - SumAll(rows, Cost)
      && |points| == |trades|
      && (trades != [] ==> points[|trades| - 1].pnl == total)
      && SortedAsc(points, PointTime)
  {
    var trades := ValueTrades(rows, price);
    ValuedAreLive(rows, markets, price);
    RowsOfValued(rows, price);
    TotalPnlIsValueMinusCost(trades, markets, price);
    if trades != [] {
      LastPointIsTotal(trades, markets, price);
    }
    ValueTradesKeepOrder(rows, price);
    SeriesAscending(trades);
  }

  /**
   * `report` is the response for user `u` over `tables`: the range, the balance, the valued
   * trades newest first, the valued positions, the total and the series; the total is the
   * trades' value minus their cost, there is one point per trade, the last point carries the
   * total, and the points run oldest first.
   */
  ghost predicate IsReport(report: Report, tables: Tables, u: UserId, rangeParam: Option<string>, clock: Clock, price: PriceFn) {
      var range := RangeOf(rangeParam);
      var rows := NewestFirst(tables, u, Window(range, clock));
      var trades := ValueTrades(rows, price);
      && report == Report(range, Balance(tables.ledger, u), trades, ValuePositions(EntriesFor(trades)),
                          TotalPnl(ValuePositions(EntriesFor(trades))), Series(Reverse(trades)))
      && report.total == SumAll(rows, ValueAt(price)) - SumAll(rows, Cost)
      && |report.points| == |trades|
      && (trades != [] ==> report.points[|trades| - 1].pnl == report.total)
      && SortedAsc(report.points, PointTime)
  }

  /**
   * The reads after the commit: the user's trades in the range's window newest first, each
   * valued; the positions aggregated and valued; the PnL series replayed; the balance.
   */
  method ReadReport(tables: Tables, u: UserId, rangeParam: Option<string>, clock: Clock, price: PriceFn)
    returns (report: Report)
    ensures IsReport(report, tables, u, rangeParam, clock, price)
  {
    var range := RangeOf(rangeParam);
    var since := Window(range, clock);
    var rows := NewestFirst(tables, u, since);
    var trades := ValueTrades(rows, price);
    var posMap := AggregatePositions(trades);
    var positions := ValuePositions(posMap.Values());
    var points := ReplayPnl(trades);
    var totalPnl := TotalPnl(positions);
    var balance := Balance(tables.ledger, u);
    ReportConsistent(rows, tables.markets, price);
    report := Report(range, balance, trades, positions, totalPnl, points);
  }

  /**
   * `auth` is the identity provider's user, `rangeParam` the query string's range, `clock`
   * the store's clock, `price` the pricing library's yesPrice and `fault` where, if anywhere,
   * a store statement throws. The bootstrap is committed before the reads.
   */
  method Get(db: Database, auth: Option<UserId>, rangeParam: Option<string>, clock: Clock, price: PriceFn, fault: Fault)
    returns (reply: Reply<Report>)
    requires db.Valid()
    modifies db
    ensures db.Valid()
    ensures auth.None? ==> reply == Failure(Unauthorized, "unauthorized") && db.Contents() == old(db.Contents())
    ensures auth.Some? && fault == BeforeCommit ==>
      reply == Failure(ServerError, "server_error") && db.Contents() == old(db.Contents())
    ensures auth.Some? && fault != BeforeCommit ==>
      var u := auth.value;
      && db.profiles == old(db.profiles) + {u}
      && db.ledger == (if u in old(db.profiles) then old(db.ledger) else old(db.ledger) + [SignupEntry(u)])
      && db.markets == old(db.markets) && db.snapshots == old(db.snapshots) && db.trades == old(db.trades)
    ensures auth.Some? && fault == AfterCommit ==> reply == Failure(ServerError, "server_error")
    ensures auth.Some? && fault == NoFault ==>
      reply.Success? && IsReport(reply.payload, db.Contents(), auth.value, rangeParam, clock, price)
  {
    if auth.None? {
      return Failure(Unauthorized, "unauthorized");
    }
    var u := auth.value;
    // BEGIN
    var profiles0, ledger0 := db.profiles, db.ledger;
    var created := db.Bootstrap(u);
    if fault == BeforeCommit {
      // ROLLBACK
      db.profiles, db.ledger := profiles0, ledger0;
      return Failure(ServerError, "server_error");
    }
    // COMMIT
    var report := ReadReport(db.Contents(), u, rangeParam, clock, price);
    if fault == AfterCommit {
      return Failure(ServerError, "server_error");
    }
    reply := Success(report);
  }
}
