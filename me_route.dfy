/** GET /api/me: bootstrap the signed-in user's account and report their balance. */
module MeRoute {
  import opened Wrappers
  import opened Records
  import opened Db

  datatype Me = Me(userId: UserId, balance: real)

  /**
   * `auth` is the identity provider's user, if any. `storeFails` says that some statement
   * of the transaction threw; the handler then rolls the whole transaction back.
   */
  method Get(db: Database, auth: Option<UserId>, storeFails: bool) returns (reply: Reply<Me>)
    requires db.Valid()
    modifies db
    ensures db.Valid()
    ensures auth.None? ==> reply == Failure(Unauthorized, "unauthorized") && db.Contents() == old(db.Contents())
    ensures auth.Some? && storeFails ==> reply == Failure(ServerError, "server_error") && db.Contents() == old(db.Contents())
    ensures auth.Some? && !storeFails ==>
      var u := auth.value;
      && db.profiles == old(db.profiles) + {u}
      && db.ledger == (if u in old(db.profiles) then old(db.ledger) else old(db.ledger) + [SignupEntry(u)])
      && db.markets == old(db.markets) && db.snapshots == old(db.snapshots) && db.trades == old(db.trades)
      && reply == Success(Me(u, Balance(db.ledger, u)))
    // the first call grants the bonus on top of whatever the user already had
    ensures auth.Some? && !storeFails && auth.value !in old(db.profiles) ==>
      reply.payload.balance == old(Balance(db.ledger, auth.value)) + SignupBonus
    // later calls leave the balance as it was
    ensures auth.Some? && !storeFails && auth.value in old(db.profiles) ==>
      reply.payload.balance == old(Balance(db.ledger, auth.value))
    // nobody else's profile or balance moves
    ensures auth.Some? ==> forall v :: v != auth.value ==>
      (v in db.profiles <==> v in old(db.profiles)) && Balance(db.ledger, v) == old(Balance(db.ledger, v))
  {
    if auth.None? {
      return Failure(Unauthorized, "unauthorized");
    }
    var u := auth.value;
    // BEGIN
    var profiles0, ledger0 := db.profiles, db.ledger;
    var created := db.Bootstrap(u);
    var balance := Balance(db.ledger, u);
    if storeFails {
      // ROLLBACK
      db.profiles, db.ledger := profiles0, ledger0;
      return Failure(ServerError, "server_error");
    }
    // COMMIT
    forall v ensures Balance(db.ledger, v) == Balance(ledger0, v) + (if created && v == u then SignupBonus else 0.0) {
      if created {
        BalanceAppend(ledger0, SignupEntry(u), v);
      }
    }
    reply := Success(Me(u, balance));
  }

  /** A user with no ledger history sees exactly the signup bonus after their first call. */
  lemma FirstCallBalance(ledger: seq<LedgerEntry>, user: UserId)
    requires forall e :: e in ledger ==> e.user != user
    ensures Balance(ledger + [SignupEntry(user)], user) == SignupBonus
  {
    BalanceAppend(ledger, SignupEntry(user), user);
    BalanceWithoutEntries(ledger, user);
  }
}
