/**
 * The MySQL database as one in-memory store: four tables, their auto-increment counters, a clock that
 * stamps `createdAt`, the begin/commit/rollback state of the connection, and the statement kinds
 * that raise a database error.
 */
module Database {
  import opened Schema
  import opened Ordering

  datatype Table = UserTable | WalletTable | EarningTable | TransactionTable

  /** The kinds of statement the handlers send. */
  datatype Statement = Select(table: Table) | Insert(table: Table) | Update(table: Table) | Delete(table: Table) | Begin | Commit

  datatype Tables = Tables(users: seq<User>, wallets: seq<Wallet>, earnings: seq<Earning>, transactions: seq<Transaction>)

  /** The next auto-increment id of each table, and the next `createdAt` stamp. */
  datatype Counters = Counters(user: nat, wallet: nat, earning: nat, transaction: nat, clock: nat)

  ghost predicate NotAhead(c: Counters, d: Counters) {
    c.user <= d.user && c.wallet <= d.wallet && c.earning <= d.earning && c.transaction <= d.transaction && c.clock <= d.clock
  }

  /**
   * What the tables look like when every row came through the store: ids increase in table order and
   * stay below their counter, emails are unique, rows are stamped in the order they arrive, and audit
   * rows only name wallet ids that have been handed out.
   */
  ghost predicate WellFormed(t: Tables, next: Counters) {
    UsersWellFormed(t.users, next) && WalletsWellFormed(t.wallets, next)
    && EarningsWellFormed(t.earnings, next) && TransactionsWellFormed(t.transactions, next)
  }

  ghost predicate UsersWellFormed(us: seq<User>, next: Counters) {
    && Increasing(us, UserId)
    && (forall i, j :: 0 <= i < j < |us| ==> us[i].email != us[j].email)
    && (forall i :: 0 <= i < |us| ==> us[i].id < next.user && us[i].createdAt < next.clock)
  }

  /** Wallet ids increase; each wallet belongs to a user id already handed out, and no user has two. */
  ghost predicate WalletsWellFormed(ws: seq<Wallet>, next: Counters) {
    && Increasing(ws, WalletKey)
    && (forall i :: 0 <= i < |ws| ==> ws[i].walletId < next.wallet && ws[i].userId < next.user)
    && (forall i, j :: 0 <= i < j < |ws| ==> ws[i].userId != ws[j].userId)
  }

  ghost predicate EarningsWellFormed(es: seq<Earning>, next: Counters) {
    && Increasing(es, EarningKey) && Increasing(es, EarningTime)
    && (forall i :: 0 <= i < |es| ==>
          es[i].earningId < next.earning && es[i].createdAt < next.clock && es[i].walletId < next.wallet)
  }

  ghost predicate TransactionsWellFormed(ts: seq<Transaction>, next: Counters) {
    && Increasing(ts, TransactionKey) && Increasing(ts, TransactionTime)
    && (forall i :: 0 <= i < |ts| ==>
          ts[i].transactionId < next.transaction && ts[i].createdAt < next.clock && ts[i].walletId < next.wallet)
  }

  /** Removing one user row keeps the User table well formed. */
  lemma UsersWellFormedRemove(us: seq<User>, next: Counters, i: nat)
    requires UsersWellFormed(us, next) && i < |us|
    ensures UsersWellFormed(us[..i] + us[i + 1..], next)
  {
    var r := us[..i] + us[i + 1..];
    assert forall k :: 0 <= k < |r| ==> r[k] == us[if k < i then k else k + 1];
  }

  /** `DELETE FROM User WHERE id = ?` keeps the User table well formed. */
  lemma UsersWellFormedExcept(us: seq<User>, next: Counters, id: nat)
    requires UsersWellFormed(us, next)
    ensures UsersWellFormed(Except(us, UserId, id), next)
  {
    if i :| 0 <= i < |us| && us[i].id == id {
      forall j | 0 <= j < |us| && j != i ensures UserId(us[j]) != UserId(us[i]) {
        assert j < i || i < j;
      }
      ExceptUnique(us, UserId, i);
      UsersWellFormedRemove(us, next, i);
    } else {
      ExceptNone(us, UserId, id);
    }
  }

  /** Deleting a user that exists removes exactly its one row and keeps the others in order. */
  lemma DeleteRemovesOneRow(us: seq<User>, next: Counters, id: nat)
    requires UsersWellFormed(us, next) && Where(us, UserId, id) != []
    ensures exists i :: 0 <= i < |us| && us[i].id == id && Except(us, UserId, id) == us[..i] + us[i + 1..]
  {
    var u := Where(us, UserId, id)[0];
    WhereSubset(us, UserId, id);
    assert u in multiset(Where(us, UserId, id));
    var i :| 0 <= i < |us| && us[i] == u;
    forall j | 0 <= j < |us| && j != i ensures UserId(us[j]) != UserId(us[i]) {
      assert j < i || i < j;
    }
    ExceptUnique(us, UserId, i);
  }

  lemma WellFormedLater(t: Tables, c: Counters, d: Counters)
    requires WellFormed(t, c) && NotAhead(c, d)
    ensures WellFormed(t, d)
  {
  }

  lemma IncreasingAppend<T>(s: seq<T>, x: T, key: T -> nat)
    requires Increasing(s, key)
    requires forall i :: 0 <= i < |s| ==> key(s[i]) < key(x)
    ensures Increasing(s + [x], key)
  {
    var r := s + [x];
    forall i, j | 0 <= i < j < |r| ensures key(r[i]) < key(r[j]) {
      assert r[i] == s[i];
      if j < |s| { assert r[j] == s[j]; }
    }
  }

  class Store {
    var users: seq<User>
    var wallets: seq<Wallet>
    var earnings: seq<Earning>
    var transactions: seq<Transaction>
    var next: Counters
    /** Statement kinds that raise a database error when issued. */
    var failing: set<Statement>
    /** A transaction is open on the connection; `undo` holds the tables as they were when it began. */
    var inTransaction: bool
    var undo: Tables

    function Contents(): Tables
      reads this
    {
      Tables(users, wallets, earnings, transactions)
    }

    ghost predicate Valid()
      reads this
    {
      WellFormed(Contents(), next) && (inTransaction ==> WellFormed(undo, next))
    }

    /** Between requests: valid, with no transaction open. */
    ghost predicate Idle()
      reads this
    {
      Valid() && !inTransaction
    }

    constructor (failing: set<Statement>)
      ensures Idle() && Contents() == Tables([], [], [], []) && this.failing == failing
      ensures next == Counters(1, 1, 1, 1, 1)
    {
      users, wallets, earnings, transactions := [], [], [], [];
      next := Counters(1, 1, 1, 1, 1);
      this.failing := failing;
      inTransaction := false;
      undo := Tables([], [], [], []);
    }

    /** `beginTransaction`: from here on `Rollback` returns the tables to their present contents. */
    method BeginTransaction() returns (ok: bool)
      requires Idle()
      modifies this
      ensures ok == (Begin !in failing)
      ensures Valid() && inTransaction == ok
      ensures ok ==> undo == Contents()
      ensures Contents() == old(Contents()) && next == old(next) && failing == old(failing)
    {
      ok := Begin !in failing;
      if ok {
        inTransaction := true;
        undo := Contents();
      }
    }

    method CommitTransaction() returns (ok: bool)
      requires Valid() && inTransaction
      modifies this
      ensures ok == (Commit !in failing)
      ensures Valid() && inTransaction == !ok
      ensures Contents() == old(Contents()) && undo == old(undo) && next == old(next) && failing == old(failing)
    {
      ok := Commit !in failing;
      if ok {
        inTransaction := false;
      }
    }

    /**
     * `rollback`: puts back the tables of the open transaction, and does nothing when none is open.
     * The auto-increment counters are not put back.
     */
    method Rollback()
      requires Valid()
      modifies this
      ensures Idle()
      ensures Contents() == if old(inTransaction) then old(undo) else old(Contents())
      ensures next == old(next) && failing == old(failing)
    {
      if inTransaction {
        users, wallets, earnings, transactions := undo.users, undo.wallets, undo.earnings, undo.transactions;
        inTransaction := false;
      }
    }

    /** `SELECT * FROM User WHERE id = ?` */
    method SelectUsersById(id: nat) returns (ok: bool, rows: seq<User>)
      ensures ok == (Select(UserTable) !in failing)
      ensures ok ==> rows == Where(users, UserId, id)
    {
      ok := Select(UserTable) !in failing;
      rows := if ok then Where(users, UserId, id) else [];
    }

    /** `SELECT * FROM User WHERE email = ?` */
    method SelectUsersByEmail(email: string) returns (ok: bool, rows: seq<User>)
      ensures ok == (Select(UserTable) !in failing)
      ensures ok ==> rows == Where(users, UserEmail, email)
    {
      ok := Select(UserTable) !in failing;
      rows := if ok then Where(users, UserEmail, email) else [];
    }

    /** `SELECT * FROM Wallet WHERE userId = ?` */
    method SelectWallets(userId: nat) returns (ok: bool, rows: seq<Wallet>)
      requires Valid()
      ensures ok == (Select(WalletTable) !in failing)
      ensures ok ==> rows == Where(wallets, WalletOwner, userId)
      ensures forall i :: 0 <= i < |rows| ==> rows[i].walletId < next.wallet
      ensures |rows| <= 1
    {
      ok := Select(WalletTable) !in failing;
      rows := if ok then Where(wallets, WalletOwner, userId) else [];
      forall i | 0 <= i < |rows| ensures rows[i].walletId < next.wallet {
        WhereSubset(wallets, WalletOwner, userId);
        assert rows[i] in multiset(rows);
      }
      if ok {
        WhereDistinct(wallets, WalletOwner, userId);
      }
    }

    /** `SELECT ... FROM Earning WHERE userId = ?` before ordering and projection. */
    method SelectEarnings(userId: nat) returns (ok: bool, rows: seq<Earning>)
      ensures ok == (Select(EarningTable) !in failing)
      ensures ok ==> rows == Where(earnings, EarningOwner, userId)
    {
      ok := Select(EarningTable) !in failing;
      rows := if ok then Where(earnings, EarningOwner, userId) else [];
    }

    /** `SELECT ... FROM Transaction WHERE userId = ?` before ordering and projection. */
    method SelectTransactions(userId: nat) returns (ok: bool, rows: seq<Transaction>)
      ensures ok == (Select(TransactionTable) !in failing)
      ensures ok ==> rows == Where(transactions, TransactionOwner, userId)
    {
      ok := Select(TransactionTable) !in failing;
      rows := if ok then Where(transactions, TransactionOwner, userId) else [];
    }

    /** `INSERT INTO User (...)`: the row gets the next id and the present clock. */
    method InsertUser(name: string, email: string, phone: string, dob: Option<string>, gender: Option<string>,
                      profileImage: string, password: string) returns (ok: bool, id: nat)
      requires Valid()
      requires forall i :: 0 <= i < |users| ==> users[i].email != email
      modifies this
      ensures ok == (Insert(UserTable) !in failing)
      ensures Valid()
      ensures ok ==> && id == old(next.user)
                     && users == old(users) + [User(id, name, email, phone, dob, gender, profileImage, password, None, old(next.clock))]
                     && next == old(next).(user := id + 1, clock := old(next.clock) + 1)
      ensures !ok ==> users == old(users) && next == old(next)
      ensures wallets == old(wallets) && earnings == old(earnings) && transactions == old(transactions)
      ensures failing == old(failing) && inTransaction == old(inTransaction) && undo == old(undo)
    {
      ok := Insert(UserTable) !in failing;
      id := next.user;
      if ok {
        var row := User(id, name, email, phone, dob, gender, profileImage, password, None, next.clock);
        IncreasingAppend(users, row, UserId);
        users := users + [row];
        next := next.(user := id + 1, clock := next.clock + 1);
        if inTransaction { WellFormedLater(undo, old(next), next); }
      }
    }

    /** `INSERT INTO Wallet (userId, totalPoints, totalAmountRedeemed)` */
    method InsertWallet(userId: nat, totalPoints: int, totalAmountRedeemed: int) returns (ok: bool, id: nat)
      requires Valid()
      requires userId < next.user && forall i :: 0 <= i < |wallets| ==> wallets[i].userId != userId
      modifies this
      ensures ok == (Insert(WalletTable) !in failing)
      ensures Valid()
      ensures ok ==> && id == old(next.wallet)
                     && wallets == old(wallets) + [Wallet(id, userId, totalPoints, totalAmountRedeemed)]
                     && next == old(next).(wallet := id + 1)
      ensures !ok ==> wallets == old(wallets) && next == old(next)
      ensures users == old(users) && earnings == old(earnings) && transactions == old(transactions)
      ensures failing == old(failing) && inTransaction == old(inTransaction) && undo == old(undo)
    {
      ok := Insert(WalletTable) !in failing;
      id := next.wallet;
      if ok {
        var row := Wallet(id, userId, totalPoints, totalAmountRedeemed);
        IncreasingAppend(wallets, row, WalletKey);
        wallets := wallets + [row];
        next := next.(wallet := id + 1);
        if inTransaction { WellFormedLater(undo, old(next), next); }
      }
    }

    /** `INSERT INTO Earning (userId, walletId, adId, adDuration, pointsEarned)` */
    method InsertEarning(userId: nat, walletId: nat, adId: string, adDuration: Option<int>, pointsEarned: int)
      returns (ok: bool, id: nat)
      requires Valid() && walletId < next.wallet
      modifies this
      ensures ok == (Insert(EarningTable) !in failing)
      ensures Valid()
      ensures ok ==> && id == old(next.earning)
                     && earnings == old(earnings) + [Earning(id, userId, walletId, adId, adDuration, pointsEarned, old(next.clock))]
                     && next == old(next).(earning := id + 1, clock := old(next.clock) + 1)
      ensures !ok ==> earnings == old(earnings) && next == old(next)
      ensures users == old(users) && wallets == old(wallets) && transactions == old(transactions)
      ensures failing == old(failing) && inTransaction == old(inTransaction) && undo == old(undo)
    {
      ok := Insert(EarningTable) !in failing;
      id := next.earning;
      if ok {
        var row := Earning(id, userId, walletId, adId, adDuration, pointsEarned, next.clock);
        IncreasingAppend(earnings, row, EarningKey);
        IncreasingAppend(earnings, row, EarningTime);
        earnings := earnings + [row];
        next := next.(earning := id + 1, clock := next.clock + 1);
        if inTransaction { WellFormedLater(undo, old(next), next); }
      }
    }

    /** `INSERT INTO Transaction (userId, walletId, pointsRedeemed, amountRedeemed, status)` */
    method InsertTransaction(userId: nat, walletId: nat, pointsRedeemed: int, amountRedeemed: int, status: string)
      returns (ok: bool, id: nat)
      requires Valid() && walletId < next.wallet
      modifies this
      ensures ok == (Insert(TransactionTable) !in failing)
      ensures Valid()
      ensures ok ==> && id == old(next.transaction)
                     && transactions == old(transactions)
                          + [Transaction(id, userId, walletId, pointsRedeemed, amountRedeemed, status, old(next.clock))]
                     && next == old(next).(transaction := id + 1, clock := old(next.clock) + 1)
      ensures !ok ==> transactions == old(transactions) && next == old(next)
      ensures users == old(users) && wallets == old(wallets) && earnings == old(earnings)
      ensures failing == old(failing) && inTransaction == old(inTransaction) && undo == old(undo)
    {
      ok := Insert(TransactionTable) !in failing;
      id := next.transaction;
      if ok {
        var row := Transaction(id, userId, walletId, pointsRedeemed, amountRedeemed, status, next.clock);
        IncreasingAppend(transactions, row, TransactionKey);
        IncreasingAppend(transactions, row, TransactionTime);
        transactions := transactions + [row];
        next := next.(transaction := id + 1, clock := next.clock + 1);
        if inTransaction { WellFormedLater(undo, old(next), next); }
      }
    }

    /** `UPDATE Wallet SET totalPoints = totalPoints + ?, totalAmountRedeemed = totalAmountRedeemed + ? WHERE walletId = ?` */
    method UpdateWallet(walletId: nat, dPoints: int, dAmount: int) returns (ok: bool)
      requires Valid()
      modifies this
      ensures ok == (Update(WalletTable) !in failing)
      ensures Valid()
      ensures wallets == if ok then Adjust(old(wallets), walletId, dPoints, dAmount) else old(wallets)
      ensures users == old(users) && earnings == old(earnings) && transactions == old(transactions)
      ensures next == old(next) && failing == old(failing) && inTransaction == old(inTransaction) && undo == old(undo)
    {
      ok := Update(WalletTable) !in failing;
      if ok {
        wallets := Adjust(wallets, walletId, dPoints, dAmount);
      }
    }

    /** `UPDATE User SET name = ?, gender = ?, profileImage = ?, phone = ?, dob = ? WHERE id = ?` */
    method UpdateUser(id: nat, p: Profile) returns (ok: bool)
      requires Valid()
      modifies this
      ensures ok == (Update(UserTable) !in failing)
      ensures Valid()
      ensures users == if ok then SetProfile(old(users), id, p) else old(users)
      ensures wallets == old(wallets) && earnings == old(earnings) && transactions == old(transactions)
      ensures next == old(next) && failing == old(failing) && inTransaction == old(inTransaction) && undo == old(undo)
    {
      ok := Update(UserTable) !in failing;
      if ok {
        users := SetProfile(users, id, p);
      }
    }

    /** `DELETE FROM User WHERE id = ?` */
    method DeleteUser(id: nat) returns (ok: bool)
      requires Valid()
      modifies this
      ensures ok == (Delete(UserTable) !in failing)
      ensures Valid()
      ensures users == if ok then Except(old(users), UserId, id) else old(users)
      ensures wallets == old(wallets) && earnings == old(earnings) && transactions == old(transactions)
      ensures next == old(next) && failing == old(failing) && inTransaction == old(inTransaction) && undo == old(undo)
    {
      ok := Delete(UserTable) !in failing;
      if ok {
        UsersWellFormedExcept(users, next, id);
        users := Except(users, UserId, id);
      }
    }
  }
}
