/** The earning handlers: `addEarning` and `listEarnings`. */
module EarningController {
  import opened Http
  import opened Schema
  import opened Ordering
  import opened Ledger
  import opened Database

  datatype EarningBody = EarningBody(adId: Field<string>, adDuration: Field<int>, pointsEarned: Field<int>)

  datatype EarningAdded = EarningAdded(message: SuccessMessage, earningId: nat, walletId: nat, pointsAdded: int)

  /** The ad id and the points are truthy; the duration is optional and the points' sign is not checked. */
  predicate Complete(body: EarningBody): (r: bool)
    ensures r <==> && body.adId.Given? && body.adId.value != ""
                   && body.pointsEarned.Given? && body.pointsEarned.value != 0
  {
    TruthyText(body.adId) && TruthyNumber(body.pointsEarned)
  }

  /**
   * The stored duration: the destructuring default `0` applies only to a missing field, so an
   * explicit `null` is stored as SQL `NULL`.
   */
  function Duration(f: Field<int>): (r: Option<int>)
    ensures r.None? <==> f.Null?
    ensures f.Absent? ==> r == Some(0)
    ensures f.Given? ==> r == Some(f.value)
  {
    match f
    case Absent => Some(0)
    case Null => None
    case Given(d) => Some(d)
  }

  /** The Earning row `addEarning` inserts for a complete body into the caller's first wallet `w`. */
  function NewEarning(next: Counters, userId: nat, w: Wallet, body: EarningBody): (e: Earning)
    requires Complete(body)
    ensures e.earningId == next.earning && e.createdAt == next.clock
    ensures e.userId == userId && e.walletId == w.walletId
    ensures e.adId == body.adId.value && e.adId != ""
    ensures e.pointsEarned == body.pointsEarned.value && e.pointsEarned != 0
    ensures e.adDuration == Duration(body.adDuration)
  {
    Earning(next.earning, userId, w.walletId, body.adId.value, Duration(body.adDuration), body.pointsEarned.value, next.clock)
  }

  /**
   * The insert went through and the wallet update then raised an error: the statements run on the
   * pool outside any transaction, so the Earning row stays and its points are never credited.
   */
  predicate Uncredited(failing: set<Statement>) {
    Insert(EarningTable) !in failing && Update(WalletTable) in failing
  }

  /**
   * `addEarning`: records an Earning row for the caller's first wallet, then credits its points to
   * that wallet. The two statements are not atomic: when the update fails the row is kept and the
   * handler still answers 500.
   */
  method AddEarning(db: Store, userId: nat, body: EarningBody) returns (resp: Response<EarningAdded>)
    requires db.Idle()
    modifies db
    ensures db.Idle() && db.failing == old(db.failing)
    ensures db.users == old(db.users) && db.transactions == old(db.transactions)
    ensures resp == Error(BadRequest, MissingFields) <==> !Complete(body)
    ensures var rows := Where(old(db.wallets), WalletOwner, userId);
      && (resp == Error(NotFound, WalletNotFound) <==>
            Complete(body) && Select(WalletTable) !in db.failing && rows == [])
      && (resp == Error(ServerError, InternalServerError) <==>
            Complete(body) && (Select(WalletTable) in db.failing
              || (rows != [] && (Insert(EarningTable) in db.failing || Update(WalletTable) in db.failing))))
    ensures var rows := Where(old(db.wallets), WalletOwner, userId);
      resp.Ok? <==> Complete(body) && Select(WalletTable) !in db.failing && rows != []
                    && Insert(EarningTable) !in db.failing && Update(WalletTable) !in db.failing
    ensures resp.Ok? ==>
      var rows := Where(old(db.wallets), WalletOwner, userId);
      && Complete(body) && rows != []
      && var e := NewEarning(old(db.next), userId, rows[0], body);
      && resp.value == EarningAdded(EarningRecordAdded, e.earningId, e.walletId, e.pointsEarned)
      && db.earnings == old(db.earnings) + [e]
      && db.wallets == Adjust(old(db.wallets), e.walletId, e.pointsEarned, 0)
    ensures var rows := Where(old(db.wallets), WalletOwner, userId);
      db.next == if Complete(body) && Select(WalletTable) !in db.failing && rows != [] && Insert(EarningTable) !in db.failing
                 then old(db.next).(earning := old(db.next.earning) + 1, clock := old(db.next.clock) + 1)
                 else old(db.next)
    ensures resp.Ok? && old(Balanced(db.wallets, db.earnings, db.transactions)) ==> Balanced(db.wallets, db.earnings, db.transactions)
    ensures resp.Error? ==>
      var rows := Where(old(db.wallets), WalletOwner, userId);
      if Complete(body) && Select(WalletTable) !in db.failing && rows != [] && Uncredited(db.failing)
      then db.earnings == old(db.earnings) + [NewEarning(old(db.next), userId, rows[0], body)]
           && db.wallets == old(db.wallets)
      else db.Contents() == old(db.Contents())
  {
    ghost var before := db.Contents();
    if !Complete(body) {
      return Error(BadRequest, MissingFields);
    }
    var ok, rows := db.SelectWallets(userId);
    if !ok {
      return Error(ServerError, InternalServerError);
    }
    if rows == [] {
      return Error(NotFound, WalletNotFound);
    }
    var walletId := rows[0].walletId;
    var p := body.pointsEarned.value;
    var earningId;
    ok, earningId := db.InsertEarning(userId, walletId, body.adId.value, Duration(body.adDuration), p);
    if !ok {
      return Error(ServerError, InternalServerError);
    }
    ok := db.UpdateWallet(walletId, p, 0);
    if !ok {
      return Error(ServerError, InternalServerError);
    }
    if Balanced(before.wallets, before.earnings, before.transactions) {
      AddedKeepsBalance(before, db.Contents(), db.earnings[|db.earnings| - 1]);
    }
    return Ok(EarningAdded(EarningRecordAdded, earningId, walletId, p));
  }

  /** A successful earning keeps the ledger balanced. */
  lemma AddedKeepsBalance(before: Tables, after: Tables, e: Earning)
    requires Balanced(before.wallets, before.earnings, before.transactions)
    requires after.earnings == before.earnings + [e] && after.transactions == before.transactions
    requires after.wallets == Adjust(before.wallets, e.walletId, e.pointsEarned, 0)
    ensures Balanced(after.wallets, after.earnings, after.transactions)
  {
    EarnKeepsBalance(before.wallets, before.earnings, before.transactions, e);
  }

  /**
   * When the wallet update fails after the insert, a balanced ledger stops being balanced: the
   * caller's wallet falls short of its Earning rows by exactly the points of the new row.
   */
  lemma UncreditedBreaksBalance(before: Tables, after: Tables, userId: nat, next: Counters, body: EarningBody)
    requires Balanced(before.wallets, before.earnings, before.transactions)
    requires Complete(body) && Where(before.wallets, WalletOwner, userId) != []
    requires var w := Where(before.wallets, WalletOwner, userId)[0];
      after == before.(earnings := before.earnings + [NewEarning(next, userId, w, body)])
    ensures var w := Where(before.wallets, WalletOwner, userId)[0];
      && Earned(after.earnings, w.walletId) - Redeemed(after.transactions, w.walletId)
           == w.totalPoints + body.pointsEarned.value
      && !Balanced(after.wallets, after.earnings, after.transactions)
  {
    var w := Where(before.wallets, WalletOwner, userId)[0];
    WhereSubset(before.wallets, WalletOwner, userId);
    assert w in multiset(Where(before.wallets, WalletOwner, userId));
    assert w in before.wallets;
    var i :| 0 <= i < |before.wallets| && before.wallets[i] == w;
    UncreditedEarningUnbalances(before.wallets, before.earnings, before.transactions,
                                NewEarning(next, userId, w, body), i);
  }

  datatype EarningView = EarningView(earningId: nat, adId: string, adDuration: Option<int>, pointsEarned: int, createdAt: nat)

  function ViewOf(e: Earning): EarningView {
    EarningView(e.earningId, e.adId, e.adDuration, e.pointsEarned, e.createdAt)
  }

  function ViewTime(v: EarningView): nat { v.createdAt }

  /** The selected columns of each row, in the same order. */
  function Views(es: seq<Earning>): seq<EarningView> {
    seq(|es|, i requires 0 <= i < |es| => ViewOf(es[i]))
  }

  /**
   * `SELECT earningId, adId, adDuration, pointsEarned, createdAt FROM Earning
   *  WHERE userId = ? ORDER BY createdAt DESC`.
   */
  function History(es: seq<Earning>, userId: nat): (r: seq<EarningView>)
    ensures NewestFirst(r, ViewTime)
    ensures multiset(r) == multiset(Views(Where(es, EarningOwner, userId)))
  {
    SortNewestFirst(Views(Where(es, EarningOwner, userId)), ViewTime)
  }

  /** On a table stamped in arrival order, the history is the caller's rows read backwards. */
  lemma HistoryIsReverse(es: seq<Earning>, userId: nat)
    requires Increasing(es, EarningTime)
    ensures History(es, userId) == Reverse(Views(Where(es, EarningOwner, userId)))
  {
    var mine := Where(es, EarningOwner, userId);
    WhereIncreasing(es, EarningOwner, userId, EarningTime);
    assert Increasing(Views(mine), ViewTime) by {
      forall i, j | 0 <= i < j < |mine| ensures ViewTime(Views(mine)[i]) < ViewTime(Views(mine)[j]) {
        assert EarningTime(mine[i]) < EarningTime(mine[j]);
      }
    }
    SortIncreasingIsReverse(Views(mine), ViewTime);
  }

  datatype Earnings = Earnings(message: SuccessMessage, earnings: seq<EarningView>)

  /** `listEarnings`: the caller's Earning rows, newest first. */
  method ListEarnings(db: Store, userId: nat) returns (resp: Response<Earnings>)
    ensures resp.Ok? <==> Select(EarningTable) !in db.failing
    ensures resp.Error? ==> resp == Error(ServerError, InternalServerError)
    ensures resp.Ok? ==> resp.value == Earnings(EarningList, History(db.earnings, userId))
    ensures resp.Ok? && db.Valid() ==>
      resp.value.earnings == Reverse(Views(Where(db.earnings, EarningOwner, userId)))
  {
    var ok, rows := db.SelectEarnings(userId);
    if !ok {
      return Error(ServerError, InternalServerError);
    }
    var list := SortNewestFirst(Views(rows), ViewTime);
    if db.Valid() {
      HistoryIsReverse(db.earnings, userId);
    }
    return Ok(Earnings(EarningList, list));
  }
}
