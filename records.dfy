/** The rows of the store: profiles, ledger entries, markets, snapshots and trades. */
module Records {

  type UserId = string
  type MarketId = string

  /** A timestamp in microseconds, the resolution of the store's timestamps. */
  type Instant = int

  datatype Side = Yes | No

  datatype Market = Market(id: MarketId, question: string, b: real, qYes: real, qNo: real, createdAt: Instant)

  datatype Snapshot = Snapshot(marketId: MarketId, qYes: real, qNo: real, pYes: real, at: Instant)

  datatype Trade = Trade(id: string, marketId: MarketId, who: UserId, side: Side, shares: real, cost: real, createdAt: Instant)

  datatype LedgerEntry = LedgerEntry(user: UserId, delta: real, reason: string)

  /** One row of the query that joins a user's trades with their markets. */
  datatype TradeRow = TradeRow(
    id: string, marketId: MarketId, question: string, side: Side, shares: real, cost: real,
    createdAt: Instant, b: real, qYes: real, qNo: real)

  /** The YES price of an outcome-quantity state: yesPrice(qYes, qNo, b) of the pricing library. */
  type PriceFn = (real, real, real) -> real

  /** The liquidity bounds of the pricing library. */
  const BMin: real := 0.01
  const BMax: real := 1000000.0

  const SignupBonus: real := 100.0
  const SignupReason: string := "signup_bonus"

  /** The live YES price of the market a joined row carries. */
  function RowPYes(r: TradeRow, price: PriceFn): real {
    price(r.qYes, r.qNo, r.b)
  }

  function YesShares(r: TradeRow): real {
    if r.side == Yes then r.shares else 0.0
  }

  function NoShares(r: TradeRow): real {
    if r.side == No then r.shares else 0.0
  }

  function Cost(r: TradeRow): real {
    r.cost
  }

  function RowTime(r: TradeRow): int {
    r.createdAt
  }

  function MarketTime(m: Market): int {
    m.createdAt
  }
}
