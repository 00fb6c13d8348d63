/** The redemption handlers: `redeemPoints` and `listTransactions`. */
module TransactionController {
  import opened Http
  import opened Schema
  import opened Ordering
  import opened Ledger
  import opened Database

  datatype RedeemBody = RedeemBody(pointsRedeemed: Field<int>, amountRedeemed: Field<int>)

  datatype Redemption = Redemption(message: SuccessMessage, transactionId: nat)

  /** Both amounts are truthy; neither sign nor size is checked. */
  predicate Complete(body: RedeemBody): (r: bool)
    ensures r <==> && body.pointsRedeemed.Given? && body.pointsRedeemed.value != 0
                   && body.amountRedeemed.Given? && body.amountRedeemed.value != 0
  {
    TruthyNumber(body.pointsRedeemed) && TruthyNumber(body.amountRedeemed)
  }

  /** One of the statements from `beginTransaction` to `commit` raises an error, and is rolled back. */
  predicate WriteFails(failing: set<Statement>) {
    Begin in failing || Update(WalletTable) in failing || Insert(TransactionTable) in failing || Commit in failing
  }

  /**
   * The Transaction INSERT ran and succeeded. Its auto-increment id stays used even when the commit
   * then fails and the row is rolled back.
   */
  predicate Recorded(failing: set<Statement>) {
    Begin !in failing && Update(WalletTable) !in failing && Insert(TransactionTable) !in failing
  }

  /**
   * `redeemPoints`: debits the caller's wallet and records a COMPLETED Transaction row, both or neither.
   * Every error leaves the tables as they were; a successful redemption keeps the ledger balanced.
   */
  method RedeemPoints(db: Store, userId: nat, body: RedeemBody) returns (resp: Response<Redemption>)
    requires db.Idle()
    modifies db
    ensures db.Idle() && db.failing == old(db.failing)
    ensures db.users == old(db.users) && db.earnings == old(db.earnings)
    ensures resp.Error? ==> db.Contents() == old(db.Contents())
    ensures resp == Error(BadRequest, DataIsReq) <==> !Complete(body)
    ensures var rows := Where(old(db.wallets), WalletOwner, userId);
      && (resp == Error(NotFound, WalletNotFound) <==>
            Complete(body) && Select(WalletTable) !in db.failing && rows == [])
      && (resp == Error(BadRequest, InsufficientFunds) <==>
            Complete(body) && Select(WalletTable) !in db.failing && rows != []
            && body.pointsRedeemed.value > rows[0].totalPoints)
      && (resp == Error(ServerError, InternalServerError) <==>
            Complete(body) && (Select(WalletTable) in db.failing
              || (rows != [] && body.pointsRedeemed.value <= rows[0].totalPoints && WriteFails(db.failing))))
    ensures var rows := Where(old(db.wallets), WalletOwner, userId);
      resp.Ok? <==> Complete(body) && Select(WalletTable) !in db.failing && rows != []
                    && body.pointsRedeemed.value <= rows[0].totalPoints && !WriteFails(db.failing)
    ensures resp.Ok? ==>
      var rows := Where(old(db.wallets), WalletOwner, userId);
      && Complete(body) && rows != []
      && var w, p, a := rows[0], body.pointsRedeemed.value, body.amountRedeemed.value;
      && resp.value == Redemption(PointsRedeemed, old(db.next.transaction))
      && db.transactions == old(db.transactions)
           + [Transaction(old(db.next.transaction), userId, w.walletId, p, a, Completed, old(db.next.clock))]
      && db.wallets == Adjust(old(db.wallets), w.walletId, -p, a)
      && w.totalPoints - p >= 0
    ensures var rows := Where(old(db.wallets), WalletOwner, userId);
      db.next == if Complete(body) && Select(WalletTable) !in db.failing && rows != []
                    && body.pointsRedeemed.value <= rows[0].totalPoints && Recorded(db.failing)
                 then old(db.next).(transaction := old(db.next.transaction) + 1, clock := old(db.next.clock) + 1)
                 else old(db.next)
    ensures old(Balanced(db.wallets, db.earnings, db.transactions)) ==> Balanced(db.wallets, db.earnings, db.transactions)
  {
    if !Complete(body) {
      return Error(BadRequest, DataIsReq);
    }
    var p, a := body.pointsRedeemed.value, body.amountRedeemed.value;
    var ok, rows := db.SelectWallets(userId);
    if !ok {
      db.Rollback();
      return Error(ServerError, InternalServerError);
    }
    if rows == [] {
      return Error(NotFound, WalletNotFound);
    }
    var wallet := rows[0];
    if p > wallet.totalPoints {
      return Error(BadRequest, InsufficientFunds);
    }
    var id;
    ok, id := Debit(db, userId, wallet.walletId, p, a);
    if !ok {
      return Error(ServerError, InternalServerError);
    }
    return Ok(Redemption(PointsRedeemed, id));
  }

  /**
   * The statements from `beginTransaction` to `commit`: debit the wallet, record the redemption, commit;
   * when any of them raises an error, roll back to the tables as they were.
   */
  method Debit(db: Store, userId: nat, walletId: nat, p: int, a: int) returns (ok: bool, id: nat)
    requires db.Idle() && walletId < db.next.wallet
    modifies db
    ensures db.Idle() && db.failing == old(db.failing)
    ensures ok == !WriteFails(db.failing)
    ensures !ok ==> db.Contents() == old(db.Contents())
    ensures ok ==> && id == old(db.next.transaction)
                   && db.Contents() == old(db.Contents()).(
                        wallets := Adjust(old(db.wallets), walletId, -p, a),
                        transactions := old(db.transactions)
                          + [Transaction(id, userId, walletId, p, a, Completed, old(db.next.clock))])
    ensures db.next == if Recorded(db.failing)
                       then old(db.next).(transaction := old(db.next.transaction) + 1, clock := old(db.next.clock) + 1)
                       else old(db.next)
    ensures old(Balanced(db.wallets, db.earnings, db.transactions)) ==> Balanced(db.wallets, db.earnings, db.transactions)
  {
    ghost var before, stamp := db.Contents(), db.next.clock;
    id := db.next.transaction;
    ok := db.BeginTransaction();
    if ok {
      ok, id := Writes(db, userId, walletId, p, a);
    }
    if ok {
      ok := db.CommitTransaction();
    }
    if !ok {
      db.Rollback();
      return;
    }
    if Balanced(before.wallets, before.earnings, before.transactions) {
      RedeemKeepsBalance(before.wallets, before.earnings, before.transactions,
                         Transaction(id, userId, walletId, p, a, Completed, stamp));
    }
  }

  /** The two writes inside the open transaction: the wallet UPDATE, then the Transaction INSERT. */
  method Writes(db: Store, userId: nat, walletId: nat, p: int, a: int) returns (ok: bool, id: nat)
    requires db.Valid() && db.inTransaction && walletId < db.next.wallet
    modifies db
    ensures db.Valid() && db.inTransaction && db.undo == old(db.undo) && db.failing == old(db.failing)
    ensures ok == (Update(WalletTable) !in db.failing && Insert(TransactionTable) !in db.failing)
    ensures ok ==> && id == old(db.next.transaction)
                   && db.Contents() == old(db.Contents()).(
                        wallets := Adjust(old(db.wallets), walletId, -p, a),
                        transactions := old(db.transactions)
                          + [Transaction(id, userId, walletId, p, a, Completed, old(db.next.clock))])
    ensures db.next == if ok then old(db.next).(transaction := old(db.next.transaction) + 1, clock := old(db.next.clock) + 1)
                       else old(db.next)
  {
    id := db.next.transaction;
    ok := db.UpdateWallet(walletId, -p, a);
    if ok {
      ok, id := db.InsertTransaction(userId, walletId, p, a, Completed);
    }
  }

  datatype TransactionView = TransactionView(
    transactionId: nat, pointsRedeemed: int, amountRedeemed: int, status: string, createdAt: nat)

  function ViewOf(t: Transaction): TransactionView {
    TransactionView(t.transactionId, t.pointsRedeemed, t.amountRedeemed, t.status, t.createdAt)
  }

  function ViewTime(v: TransactionView): nat { v.createdAt }

  /** The selected columns of each row, in the same order. */
  function Views(ts: seq<Transaction>): (r: seq<TransactionView>) {
    seq(|ts|, i requires 0 <= i < |ts| => ViewOf(ts[i]))
  }

  /**
   * `SELECT transactionId, pointsRedeemed, amountRedeemed, status, createdAt FROM Transaction
   *  WHERE userId = ? ORDER BY createdAt DESC`.
   */
  function History(ts: seq<Transaction>, userId: nat): (r: seq<TransactionView>)
    ensures NewestFirst(r, ViewTime)
    ensures multiset(r) == multiset(Views(Where(ts, TransactionOwner, userId)))
  {
    SortNewestFirst(Views(Where(ts, TransactionOwner, userId)), ViewTime)
  }

  /** On a table stamped in arrival order, the history is the caller's rows read backwards. */
  lemma HistoryIsReverse(ts: seq<Transaction>, userId: nat)
    requires Increasing(ts, TransactionTime)
    ensures History(ts, userId) == Reverse(Views(Where(ts, TransactionOwner, userId)))
  {
    var mine := Where(ts, TransactionOwner, userId);
    WhereIncreasing(ts, TransactionOwner, userId, TransactionTime);
    assert Increasing(Views(mine), ViewTime) by {
      forall i, j | 0 <= i < j < |mine| ensures ViewTime(Views(mine)[i]) < ViewTime(Views(mine)[j]) {
        assert TransactionTime(mine[i]) < TransactionTime(mine[j]);
      }
    }
    SortIncreasingIsReverse(Views(mine), ViewTime);
  }

  datatype TransactionList = TransactionList(message: SuccessMessage, earnings: seq<TransactionView>)

  /**
   * `listTransactions`: the caller's redemptions, newest first. The response reuses the earnings
   * message and the `earnings` key.
   */
  method ListTransactions(db: Store, userId: nat) returns (resp: Response<TransactionList>)
    ensures resp.Ok? <==> Select(TransactionTable) !in db.failing
    ensures resp.Error? ==> resp == Error(ServerError, InternalServerError)
    ensures resp.Ok? ==> resp.value == TransactionList(EarningList, History(db.transactions, userId))
    ensures resp.Ok? && db.Valid() ==>
      resp.value.earnings == Reverse(Views(Where(db.transactions, TransactionOwner, userId)))
  {
    var ok, rows := db.SelectTransactions(userId);
    if !ok {
      return Error(ServerError, InternalServerError);
    }
    var list := SortNewestFirst(Views(rows), ViewTime);
    if db.Valid() {
      HistoryIsReverse(db.transactions, userId);
    }
    return Ok(TransactionList(EarningList, list));
  }
}
