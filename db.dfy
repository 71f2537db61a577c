/**
 * The relational store as the routes see it: tables as fields of one object, the
 * account bootstrap that three routes run, the ledger balance query and the
 * query that joins a user's trades with their markets.
 */
module Db {
  import opened Wrappers
  import opened Records

  function SignupEntry(user: UserId): LedgerEntry {
    LedgerEntry(user, SignupBonus, SignupReason)
  }

  /** WHERE user_id = user: the user's ledger entries, in ledger order. */
  function EntriesOf(ledger: seq<LedgerEntry>, user: UserId): (es: seq<LedgerEntry>)
    ensures forall e :: e in es <==> e in ledger && e.user == user
    decreases |ledger|
  {
    if ledger == [] then []
    else
      var init, last := ledger[..|ledger| - 1], ledger[|ledger| - 1];
      assert ledger == init + [last];
      EntriesOf(init, user) + (if last.user == user then [last] else [])
  }

  /** COALESCE(SUM(delta), 0): the deltas added up, 0 when there are none. */
  function SumDeltas(es: seq<LedgerEntry>): real
    decreases |es|
  {
    if es == [] then 0.0 else SumDeltas(es[..|es| - 1]) + es[|es| - 1].delta
  }

  lemma SumDeltasSnoc(es: seq<LedgerEntry>, e: LedgerEntry)
    ensures SumDeltas(es + [e]) == SumDeltas(es) + e.delta
  {
    assert (es + [e])[..|es|] == es;
  }

  /**
   * The balance query, added up entry by entry over the whole ledger: the sum of the
   * user's deltas, 0 when the user has none.
   */
  function Balance(ledger: seq<LedgerEntry>, user: UserId): (r: real)
    ensures r == SumDeltas(EntriesOf(ledger, user))
    decreases |ledger|
  {
    if ledger == [] then 0.0
    else
      var init, last := ledger[..|ledger| - 1], ledger[|ledger| - 1];
      SumDeltasSnoc(EntriesOf(init, user), last);
      assert EntriesOf(init, user) + [] == EntriesOf(init, user);
      Balance(init, user) + (if last.user == user then last.delta else 0.0)
  }

  /** How many signup bonuses the user has been granted. */
  function BonusCount(ledger: seq<LedgerEntry>, user: UserId): nat
    decreases |ledger|
  {
    if ledger == [] then 0
    else
      var last := ledger[|ledger| - 1];
      BonusCount(ledger[..|ledger| - 1], user) + (if last.user == user && last.reason == SignupReason then 1 else 0)
  }

  /** An appended entry moves its own user's balance by its delta and no one else's. */
  lemma BalanceAppend(ledger: seq<LedgerEntry>, e: LedgerEntry, user: UserId)
    ensures Balance(ledger + [e], user) == Balance(ledger, user) + (if e.user == user then e.delta else 0.0)
  {
    assert (ledger + [e])[..|ledger|] == ledger;
  }

  lemma BonusCountAppend(ledger: seq<LedgerEntry>, e: LedgerEntry, user: UserId)
    ensures BonusCount(ledger + [e], user) ==
      BonusCount(ledger, user) + (if e.user == user && e.reason == SignupReason then 1 else 0)
  {
    assert (ledger + [e])[..|ledger|] == ledger;
  }

  /** A user without ledger entries has balance 0. */
  lemma {:induction false} BalanceWithoutEntries(ledger: seq<LedgerEntry>, user: UserId)
    requires forall e :: e in ledger ==> e.user != user
    ensures Balance(ledger, user) == 0.0
    decreases |ledger|
  {
    if ledger != [] {
      assert ledger[|ledger| - 1] in ledger;
      var init := ledger[..|ledger| - 1];
      assert forall e :: e in init ==> e in ledger;
      BalanceWithoutEntries(init, user);
    }
  }

  /** The market with identifier `id`: the first such row, as the primary key makes it unique. */
  function FindMarket(markets: seq<Market>, id: MarketId): (r: Option<Market>)
    ensures r.Some? ==> r.value in markets && r.value.id == id
    ensures r.None? ==> forall mk :: mk in markets ==> mk.id != id
    decreases |markets|
  {
    if markets == [] then None
    else if markets[0].id == id then Some(markets[0])
    else FindMarket(markets[1..], id)
  }

  /** The live YES price of market `m`, from the market table. */
  function LivePrice(markets: seq<Market>, m: MarketId, price: PriceFn): real {
    match FindMarket(markets, m)
    case Some(mk) => price(mk.qYes, mk.qNo, mk.b)
    case None => 0.0
  }

  ghost predicate IdsDistinct(markets: seq<Market>) {
    forall i, j :: 0 <= i < j < |markets| ==> markets[i].id != markets[j].id
  }

  ghost predicate HasSnapshot(snapshots: seq<Snapshot>, m: MarketId) {
    exists s :: s in snapshots && s.marketId == m
  }

  /** The trade passes the query's filters: the user's own, inside the time window, with a market to join. */
  predicate Selected(t: Trade, markets: seq<Market>, user: UserId, since: Option<Instant>) {
    && t.who == user
    && (since.None? || t.createdAt >= since.value)
    && FindMarket(markets, t.marketId).Some?
  }

  /** The trades the query keeps, in store order. */
  function SelectTrades(trades: seq<Trade>, markets: seq<Market>, user: UserId, since: Option<Instant>): (r: seq<Trade>)
    ensures |r| <= |trades|
    ensures forall t :: t in r <==> t in trades && Selected(t, markets, user, since)
    ensures forall t :: multiset(r)[t] == if Selected(t, markets, user, since) then multiset(trades)[t] else 0
    decreases |trades|
  {
    if trades == [] then []
    else
      var rest := SelectTrades(trades[1..], markets, user, since);
      assert trades == [trades[0]] + trades[1..];
      assert forall t :: t in trades <==> t == trades[0] || t in trades[1..];
      if Selected(trades[0], markets, user, since) then [trades[0]] + rest else rest
  }

  function JoinRow(t: Trade, mk: Market): TradeRow {
    TradeRow(t.id, t.marketId, mk.question, t.side, t.shares, t.cost, t.createdAt, mk.b, mk.qYes, mk.qNo)
  }

  /** A joined row carries the current columns of the market it names. */
  ghost predicate RowMatches(markets: seq<Market>, x: TradeRow) {
    match FindMarket(markets, x.marketId)
    case Some(mk) => x.question == mk.question && x.b == mk.b && x.qYes == mk.qYes && x.qNo == mk.qNo
    case None => false
  }

  ghost predicate JoinedFrom(rows: seq<TradeRow>, markets: seq<Market>) {
    forall x :: x in rows ==> RowMatches(markets, x)
  }

  /**
   * trades JOIN markets WHERE who = user [AND created_at >= since]: one row per selected
   * trade, in store order, carrying the market's current columns.
   */
  function UserRows(trades: seq<Trade>, markets: seq<Market>, user: UserId, since: Option<Instant>): (rows: seq<TradeRow>)
    ensures var sel := SelectTrades(trades, markets, user, since);
      |rows| == |sel| &&
      forall i :: 0 <= i < |sel| ==>
        rows[i].id == sel[i].id && rows[i].marketId == sel[i].marketId && rows[i].side == sel[i].side &&
        rows[i].shares == sel[i].shares && rows[i].cost == sel[i].cost && rows[i].createdAt == sel[i].createdAt
    ensures JoinedFrom(rows, markets)
  {
    var sel := SelectTrades(trades, markets, user, since);
    assert forall i :: 0 <= i < |sel| ==> FindMarket(markets, sel[i].marketId).Some? by {
      forall i | 0 <= i < |sel| ensures FindMarket(markets, sel[i].marketId).Some? {
        assert sel[i] in sel;
      }
    }
    var rows := seq(|sel|, i requires 0 <= i < |sel| => JoinRow(sel[i], FindMarket(markets, sel[i].marketId).value));
    assert JoinedFrom(rows, markets) by {
      forall x | x in rows ensures RowMatches(markets, x) {
        var i :| 0 <= i < |sel| && rows[i] == x;
      }
    }
    rows
  }

  /** Every joined row is priced at its market's live price. */
  lemma JoinedRowPrice(rows: seq<TradeRow>, markets: seq<Market>, price: PriceFn, x: TradeRow)
    requires JoinedFrom(rows, markets) && x in rows
    ensures RowPYes(x, price) == LivePrice(markets, x.marketId, price)
  {
    assert RowMatches(markets, x);
  }

  /** Reordering the rows keeps them joined from the same markets. */
  lemma JoinedFromPermutation(a: seq<TradeRow>, b: seq<TradeRow>, markets: seq<Market>)
    requires JoinedFrom(a, markets) && multiset(a) == multiset(b)
    ensures JoinedFrom(b, markets)
  {
    forall x | x in b ensures RowMatches(markets, x) {
      assert x in multiset(b);
      assert x in a;
    }
  }

  /**
   * Where a store statement throws in a handler that bootstraps the account and then reads:
   * nowhere, inside the bootstrap transaction, or in the reads after its COMMIT.
   */
  datatype Fault = NoFault | BeforeCommit | AfterCommit

  /** The contents of every table at one moment. */
  datatype Tables = Tables(
    profiles: set<UserId>, ledger: seq<LedgerEntry>, markets: seq<Market>,
    snapshots: seq<Snapshot>, trades: seq<Trade>)

  class Database {
    var profiles: set<UserId>
    var ledger: seq<LedgerEntry>
    var markets: seq<Market>
    var snapshots: seq<Snapshot>
    var trades: seq<Trade>

    /** An empty store: no profiles, no ledger entries, no markets, no snapshots, no trades. */
    constructor()
      ensures Valid()
      ensures Contents() == Tables({}, [], [], [], [])
    {
      profiles, ledger, markets, snapshots, trades := {}, [], [], [], [];
    }

    /** The contents of every table. */
    function Contents(): Tables
      reads this
    {
      Tables(profiles, ledger, markets, snapshots, trades)
    }

    /**
     * Every profile owns exactly one signup bonus and no one else has one; market
     * identifiers are unique; every market has at least one snapshot.
     */
    ghost predicate Valid()
      reads this
    {
      && (forall u :: BonusCount(ledger, u) == if u in profiles then 1 else 0)
      && IdsDistinct(markets)
      && (forall mk :: mk in markets ==> HasSnapshot(snapshots, mk.id))
    }

    /**
     * INSERT INTO profiles ... ON CONFLICT DO NOTHING, then the signup bonus only when
     * the insert created the row: a second bootstrap of the same user changes nothing.
     */
    method Bootstrap(user: UserId) returns (created: bool)
      requires Valid()
      modifies this
      ensures Valid()
      ensures created <==> user !in old(profiles)
      ensures profiles == old(profiles) + {user}
      ensures ledger == if created then old(ledger) + [SignupEntry(user)] else old(ledger)
      ensures markets == old(markets) && snapshots == old(snapshots) && trades == old(trades)
    {
      created := user !in profiles;
      profiles := profiles + {user};
      if created {
        forall u ensures BonusCount(ledger + [SignupEntry(user)], u) == BonusCount(ledger, u) + (if u == user then 1 else 0) {
          BonusCountAppend(ledger, SignupEntry(user), u);
        }
        ledger := ledger + [SignupEntry(user)];
      }
    }
  }
}
