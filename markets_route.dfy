/** GET /api/markets lists the markets with their prices; POST creates one with its first snapshot. */
module MarketsRoute {
  import opened Wrappers
  import opened Records
  import opened Text
  import opened Ordering
  import opened Db

  /** A JavaScript number as Number(...) yields it. */
  datatype JsNumber = Finite(v: real) | NaN | PosInfinity | NegInfinity

  /** The request body's two fields; None stands for absent or null. A body that fails to parse reads as {}. */
  datatype CreateBody = CreateBody(question: Option<string>, b: Option<JsNumber>)

  datatype NewMarket = NewMarket(question: string, b: real)

  datatype CreatedMarket = CreatedMarket(market: Market, pYes: real)

  datatype PricedMarket = PricedMarket(market: Market, pYes: real)

  /** What the store's exception carried: its message, when it has one. */
  datatype StoreError = StoreError(message: Option<string>)

  const DefaultB: real := 25.0
  const MaxQuestionLength: nat := 280
  const BoundsMessage: string := "b must be between 0.01 and 1000000"

  /** String(body.question ?? "").trim() */
  function QuestionOf(body: CreateBody): string {
    Trim(body.question.GetOr(""))
  }

  /** Number(body.b ?? 25) */
  function BOf(body: CreateBody): JsNumber {
    body.b.GetOr(Finite(DefaultB))
  }

  predicate BAcceptable(b: JsNumber) {
    b.Finite? && BMin <= b.v <= BMax
  }

  /** The guard chain of POST: question present, question short enough, b finite and in bounds. */
  function Validate(body: CreateBody): (r: Reply<NewMarket>)
    // what is accepted: a non-blank trimmed question of at most 280 UTF-16 units and an in-bounds b
    ensures r.Success? ==>
      var q := r.payload.question;
      && q == QuestionOf(body) && q != [] && !IsJsSpace(q[0]) && !IsJsSpace(q[|q| - 1])
      && Utf16Length(q) <= MaxQuestionLength
      && BOf(body).Finite? && r.payload.b == BOf(body).v && BMin <= r.payload.b <= BMax
      && (body.b.None? ==> r.payload.b == DefaultB)
    // nothing that passes every check is refused
    ensures QuestionOf(body) != [] && Utf16Length(QuestionOf(body)) <= MaxQuestionLength && BAcceptable(BOf(body))
      ==> r.Success?
    // the checks run in order and the first one that fails decides the error
    ensures r.Failure? ==> r.status == BadRequest
    ensures QuestionOf(body) == [] ==> r.Failure? && r.error == "question required"
    ensures QuestionOf(body) != [] && Utf16Length(QuestionOf(body)) > MaxQuestionLength ==>
      r.Failure? && r.error == "question too long"
    ensures QuestionOf(body) != [] && Utf16Length(QuestionOf(body)) <= MaxQuestionLength && !BAcceptable(BOf(body)) ==>
      r.Failure? && r.error == BoundsMessage
  {
    var question := QuestionOf(body);
    var b := BOf(body);
    if question == [] then Failure(BadRequest, "question required")
    else if Utf16Length(question) > MaxQuestionLength then Failure(BadRequest, "question too long")
    else if !BAcceptable(b) then Failure(BadRequest, BoundsMessage)
    else Success(NewMarket(question, b.v))
  }

  /** A body without b gets the default, which is within bounds. */
  lemma DefaultBAccepted(question: string)
    requires Trim(question) != [] && Utf16Length(Trim(question)) <= MaxQuestionLength
    ensures Validate(CreateBody(Some(question), None)) == Success(NewMarket(Trim(question), DefaultB))
  {
  }

  /**
   * Validates, then inserts the market with zero quantities and its first snapshot in one
   * transaction. `newId` is the identifier the store generates, `now` the transaction's
   * clock, `price` the pricing library's yesPrice, and `storeError` says that a statement
   * of the transaction threw.
   */
  method Post(db: Database, body: CreateBody, newId: MarketId, now: Instant, price: PriceFn,
              storeError: Option<StoreError>) returns (reply: Reply<CreatedMarket>)
    requires db.Valid()
    requires FindMarket(db.markets, newId).None?
    modifies db
    ensures db.Valid()
    // a rejected request writes nothing
    ensures Validate(body).Failure? ==>
      && reply == Failure(BadRequest, Validate(body).error)
      && db.Contents() == old(db.Contents())
    // a failed transaction is rolled back
    ensures Validate(body).Success? && storeError.Some? ==>
      && reply == Failure(ServerError, storeError.value.message.GetOr("create market failed"))
      && db.Contents() == old(db.Contents())
    // success: exactly one market and one snapshot more, priced once
    ensures Validate(body).Success? && storeError.None? ==>
      var v := Validate(body).payload;
      var mk := Market(newId, v.question, v.b, 0.0, 0.0, now);
      var p := price(0.0, 0.0, v.b);
      && db.markets == old(db.markets) + [mk]
      && db.snapshots == old(db.snapshots) + [Snapshot(newId, mk.qYes, mk.qNo, p, now)]
      && db.profiles == old(db.profiles) && db.ledger == old(db.ledger) && db.trades == old(db.trades)
      && reply == Success(CreatedMarket(mk, p))
  {
    var v := Validate(body);
    if v.Failure? {
      return Failure(v.status, v.error);
    }
    // BEGIN
    var markets0, snapshots0 := db.markets, db.snapshots;
    var m := Market(newId, v.payload.question, v.payload.b, 0.0, 0.0, now);
    db.markets := db.markets + [m];
    var p := price(m.qYes, m.qNo, m.b);
    db.snapshots := db.snapshots + [Snapshot(m.id, m.qYes, m.qNo, p, now)];
    if storeError.Some? {
      // ROLLBACK
      db.markets, db.snapshots := markets0, snapshots0;
      return Failure(ServerError, storeError.value.message.GetOr("create market failed"));
    }
    // COMMIT
    assert db.Valid() by {
      assert forall mk :: mk in db.markets ==> mk in markets0 || mk == m;
      assert forall s :: s in snapshots0 ==> s in db.snapshots;
      assert db.snapshots[|db.snapshots| - 1].marketId == m.id;
    }
    reply := Success(CreatedMarket(m, p));
  }

  /** Each market with its price added. */
  function PriceAll(markets: seq<Market>, price: PriceFn): (r: seq<PricedMarket>)
    ensures |r| == |markets|
    ensures forall i :: 0 <= i < |r| ==> r[i] == PricedMarket(markets[i], price(markets[i].qYes, markets[i].qNo, markets[i].b))
  {
    seq(|markets|, i requires 0 <= i < |markets| => PricedMarket(markets[i], price(markets[i].qYes, markets[i].qNo, markets[i].b)))
  }

  function MarketsOf(r: seq<PricedMarket>): (markets: seq<Market>)
    ensures |markets| == |r|
    ensures forall i :: 0 <= i < |r| ==> markets[i] == r[i].market
  {
    seq(|r|, i requires 0 <= i < |r| => r[i].market)
  }

  /** SELECT ... ORDER BY created_at DESC, each row with its price added. */
  function List(markets: seq<Market>, price: PriceFn): (r: seq<PricedMarket>)
    ensures |r| == |markets|
    ensures forall i, j :: 0 <= i < j < |r| ==> r[i].market.createdAt >= r[j].market.createdAt
    ensures multiset(MarketsOf(r)) == multiset(markets)
    ensures forall i :: 0 <= i < |r| ==> r[i].pYes == price(r[i].market.qYes, r[i].market.qNo, r[i].market.b)
  {
    var sorted := SortDesc(markets, MarketTime);
    assert |sorted| == |multiset(sorted)| == |markets|;
    assert MarketsOf(PriceAll(sorted, price)) == sorted;
    PriceAll(sorted, price)
  }
}
