# Wallet ledger of the ads-rewards backend, in Dafny

The backend pays users points for watching ads and lets them redeem those points. This project
models the part of it that keeps each user's wallet: the Express handlers of
`src/controller/transaction.ts`, `src/controller/earning.ts` and `src/controller/user.ts`, over the
four MySQL tables they read and write (User, Wallet, Earning, Transaction).

- `http.dfy` (module `Http`) holds request fields, read the way JavaScript reads them. A field is
  missing, `null`, or given. Truthiness and `??` are written out. It also holds responses, each a
  payload or a status with one of the `constants.errors` messages.
- `schema.dfy` (module `Schema`) holds the rows and the row-level SQL:
  - `Where` is `SELECT ... WHERE column = ?`.
  - `Except` is `DELETE ... WHERE`.
  - `Adjust` is the wallet `UPDATE ... SET col = col + ?`.
  - `SetProfile` is the profile `UPDATE`.
- `ordering.dfy` (module `Ordering`) holds `ORDER BY createdAt DESC`, as a stable insertion sort.
- `store.dfy` (module `Database`) holds the database, as one `Store` object. Its state is:
  - the four tables;
  - the next auto-increment id of each table;
  - a clock that stamps `createdAt`;
  - whether a transaction is open on the connection, and the tables as they were at
    `beginTransaction`;
  - the set of statement kinds that raise a database error.

  The error set makes every `catch` branch of the handlers reachable and specifiable. `Valid()` is
  the store's invariant:
  - ids increase and stay below their counters;
  - emails are unique;
  - every wallet belongs to a user id already handed out, and no user has two wallets;
  - rows are stamped in arrival order;
  - audit rows name only wallet ids already handed out.
- `ledger.dfy` (module `Ledger`) holds the ledger. A wallet is *balanced* when both of these hold:
  - `totalPoints` is the sum of its Earning rows' points minus the sum of its Transaction rows'
    points;
  - `totalAmountRedeemed` is the sum of its Transaction rows' amounts.
- `transaction_controller.dfy`, `earning_controller.dfy` and `user_controller.dfy` hold one method
  per handler. Each method:
  - takes the store and the parsed request;
  - returns the response;
  - states, for every outcome, when it happens and what the tables are afterwards.

What the handlers promise, and what is proved of them:

- **Redemption** (`redeemPoints`) checks, in this order:
  1. Both amounts must be truthy (400).
  2. The caller must have a wallet (404).
  3. The points must not exceed the first wallet's balance (400).

  Then, inside one transaction, it debits the points, credits the amount and appends a `COMPLETED`
  Transaction row. Any database error rolls back to the tables as they were and answers 500. A
  successful redemption keeps a balanced ledger balanced, and the new balance is not negative.
- **Earning** (`addEarning`) checks its fields (400) and the wallet (404). It inserts an Earning
  row and then credits the points, on the pool and outside any transaction. If the credit fails
  after the insert, the row stays and the answer is 500. The model states that outcome exactly.
  From a balanced ledger it leaves the caller's wallet short by exactly the new row's points.
- **Accounts**:
  - `createUser` opens a User row and a zero Wallet row, both or neither.
  - `updateUser` merges the body into the profile with `??`. The email and the password hash are
    never touched.
  - `login` and `getUserDetails` return the row without its password.
  - `deleteUser` removes exactly the caller's User row.
- **Listings** return exactly the caller's rows, projected to the selected columns, newest first.
  The store stamps rows with distinct, increasing stamps in arrival order; under that stamping the
  listing is the caller's rows read backwards.

Behaviour of the code that the model keeps as written:

- `addEarning` inserts the Earning row and credits the wallet as two separate statements on the
  pool, with no transaction around them (src/controller/earning.ts:23-35).
- No handler checks the sign of a number.
  - A negative `pointsEarned` lowers a balance, and can take it below zero.
  - A negative `pointsRedeemed` passes the funds check unless the balance is already below it,
    and then raises the balance.
  - A negative `amountRedeemed` lowers `totalAmountRedeemed`, and can take it below zero.

  Every successful redemption still leaves a non-negative balance, because the funds check comes
  first. The ledger equation holds whatever the signs.
- The route documentation of src/routes/transaction.ts:7-37 describes an APPROVE/CANCEL settlement
  of redemptions. That file imports `requestRedeemPoints` and `listPendingTransactions`
  (src/routes/transaction.ts:2) and routes to the latter (src/routes/transaction.ts:119). The
  controller defines neither, so the model has no such flow. A redemption is `COMPLETED` at once.
- `listTransactions` answers with the earnings message and an `earnings` key. The model does the
  same.

## Model

| member | source | states |
|---|---|---|
| `Schema.Where` | src/controller/transaction.ts:15-21 | a selection holds only rows carrying the key, at most as many as the table, and every table row that carries the key |
| `Schema.WhereSubset` | src/controller/transaction.ts:15-21 | a selection takes rows from the table and nothing else (multiset inclusion) |
| `Schema.WhereHead` | src/controller/transaction.ts:21 | `rows[0]` is the first row of the table that carries the key |
| `Schema.WhereIncreasing` | src/controller/earning.ts:52-57 | a selection keeps the table's arrival order |
| `Schema.WhereKeyUnique` | src/controller/user.ts:58-65 | selecting by a key that increases through the table (a row id) yields at most one row |
| `Schema.Except` | src/controller/user.ts:207 | `DELETE ... WHERE` keeps every table row not carrying the key and no row carrying it, at most as many as the table |
| `Schema.ExceptSubset` | src/controller/user.ts:207 | a deletion keeps only rows of the table and adds none (multiset inclusion) |
| `Schema.WhereDistinct` | src/controller/transaction.ts:15-21 | selecting by a column no two rows share (a wallet's owner) yields at most one row |
| `Schema.ExceptUnique` | src/controller/user.ts:207 | deleting by a key only row `i` carries removes exactly row `i` and keeps the rest in order |
| `Schema.Adjust` | src/controller/transaction.ts:29-34 | the wallet UPDATE (here and at earning.ts:30-35) keeps the number of rows and every row's ids; the rows with that wallet id gain exactly the two deltas, every other row is unchanged |
| `Schema.AdjustOneRow` | src/controller/transaction.ts:29-34 | with unique wallet ids, the wallet UPDATE changes exactly that one row, by exactly the two deltas, and no other wallet |
| `Schema.SetProfile` | src/controller/user.ts:109-123 | the profile UPDATE gives the row with that id the new five columns; its id, email, password hash, account link and stamp, and every other row, are unchanged |
| `Ordering.SortNewestFirst` | src/controller/transaction.ts:71 | the result is ordered by createdAt descending and is a permutation of its input |
| `Ordering.NewestFirstUnique` | src/controller/transaction.ts:71 | with distinct stamps there is only one newest-first ordering of a multiset of rows |
| `Ordering.SortIncreasingIsReverse` | src/controller/earning.ts:56 | sorting rows stamped in arrival order newest first is reading them backwards |
| `Ledger.RedeemKeepsBalance` | src/controller/transaction.ts:29-46 | debiting points, crediting amount and appending the matching Transaction row keeps every wallet balanced |
| `Ledger.EarnKeepsBalance` | src/controller/earning.ts:23-35 | appending an Earning row and crediting its points to its wallet keeps every wallet balanced |
| `Ledger.OpenWalletKeepsBalance` | src/controller/user.ts:160-164 | a zero wallet under an id no audit row names keeps the ledger balanced |
| `Ledger.UncreditedEarningUnbalances` | src/controller/earning.ts:28-35 | an Earning row whose points were not credited leaves its wallet short by exactly those points, and the ledger stays balanced iff they are zero |
| `Database.UsersWellFormedExcept` | src/controller/user.ts:207 | deleting users keeps ids increasing and emails unique |
| `Database.DeleteRemovesOneRow` | src/controller/user.ts:200-207 | deleting an existing user id removes exactly its one row |
| `Database.Store.constructor` | src/database/sqlConnect.ts:6-14 | an empty database with every auto-increment counter at 1 |
| `Database.Store.BeginTransaction` | src/controller/transaction.ts:27 | opens a transaction remembering the present tables, unless `beginTransaction` raises |
| `Database.Store.CommitTransaction` | src/controller/transaction.ts:48 | closes the transaction keeping the tables, unless `commit` raises |
| `Database.Store.Rollback` | src/controller/transaction.ts:55 | restores the tables of the open transaction (does nothing when none is open); ids handed out stay used |
| `Database.Store.SelectUsersById` | src/controller/user.ts:58 | the User rows with that id, or an error |
| `Database.Store.SelectUsersByEmail` | src/controller/user.ts:15 | the User rows with that email, or an error |
| `Database.Store.SelectWallets` | src/controller/transaction.ts:15 | the caller's Wallet rows, each with an id already handed out, at most one, or an error |
| `Database.Store.SelectEarnings` | src/controller/earning.ts:52-59 | the caller's Earning rows, or an error |
| `Database.Store.SelectTransactions` | src/controller/transaction.ts:67-74 | the caller's Transaction rows, or an error |
| `Database.Store.InsertUser` | src/controller/user.ts:154-158 | appends one User row with the next id and the present stamp; the store stays valid (emails unique) |
| `Database.Store.InsertWallet` | src/controller/user.ts:160-164 | appends one Wallet row with the next wallet id, for a user id already handed out that owns no wallet yet; the store stays valid (one wallet per user) |
| `Database.Store.InsertEarning` | src/controller/earning.ts:23-28 | appends one Earning row with the next id and the present stamp |
| `Database.Store.InsertTransaction` | src/controller/transaction.ts:36-46 | appends one Transaction row with the next id and the present stamp |
| `Database.Store.UpdateWallet` | src/controller/transaction.ts:29-34 | applies the wallet UPDATE, touching no other table |
| `Database.Store.UpdateUser` | src/controller/user.ts:109-123 | applies the profile UPDATE, touching no other table |
| `Database.Store.DeleteUser` | src/controller/user.ts:207 | applies the User DELETE, touching no other table |
| `TransactionController.Complete` | src/controller/transaction.ts:11 | the body passes iff both amounts are present and non-zero (JavaScript truthiness); the sign is not checked |
| `TransactionController.RedeemPoints` | src/controller/transaction.ts:5-61 | success iff both amounts are truthy, the select succeeds, the caller has a wallet, the points do not exceed its balance and no write fails; 400 iff an amount is falsy; 404 iff no wallet; 400 iff points exceed the first wallet's balance; 500 iff the select or a write fails; every error leaves the tables unchanged; success debits/credits exactly that wallet, appends one COMPLETED row with the caller's and wallet's ids and returns its id, leaves a non-negative balance and keeps the ledger balanced; the transaction id and the clock advance by one iff the INSERT ran, even when the commit then fails, and every other counter stays |
| `TransactionController.Debit` | src/controller/transaction.ts:27-57 | begin, update, insert, commit are all-or-nothing: any error restores the tables; success applies both writes and keeps the ledger balanced; the transaction id and the clock advance iff the INSERT ran, and no other counter moves |
| `TransactionController.Writes` | src/controller/transaction.ts:29-46 | inside the open transaction, the wallet UPDATE then the COMPLETED Transaction INSERT; success iff neither raises, and then exactly those two tables change |
| `TransactionController.History` | src/controller/transaction.ts:67-72 | the listing is newest first and holds exactly the projections of the caller's rows |
| `TransactionController.HistoryIsReverse` | src/controller/transaction.ts:67-72 | on a table with distinct stamps increasing in arrival order the listing is the caller's rows read backwards |
| `TransactionController.ListTransactions` | src/controller/transaction.ts:63-85 | 500 iff the select fails; otherwise the caller's history under the earnings message and key |
| `EarningController.Complete` | src/controller/earning.ts:10 | the body passes iff adId is a non-empty string and the points are present and non-zero; the duration is optional |
| `EarningController.Duration` | src/controller/earning.ts:8 | a missing duration becomes 0, a `null` one SQL NULL, a given one itself |
| `EarningController.NewEarning` | src/controller/earning.ts:23-28 | the inserted row takes the next earning id and the present stamp, the caller's id and the first wallet's id, the non-empty adId and the non-zero points; its duration is 0 when missing, NULL when `null`, and the sent value otherwise |
| `EarningController.AddEarning` | src/controller/earning.ts:5-46 | success iff the body is complete, the select succeeds, the caller has a wallet and neither write fails; 400 iff adId or points falsy; 404 iff no wallet; 500 iff the select, insert or update fails; success appends one Earning row for the first wallet, credits exactly its points, and echoes earningId, walletId and pointsAdded; a failed update after the insert keeps the row and leaves the wallets as they were; any other error changes nothing; the earning id and the clock advance by one iff the INSERT ran, and every other counter stays; success keeps the ledger balanced |
| `EarningController.AddedKeepsBalance` | src/controller/earning.ts:23-42 | a successful earning keeps the ledger balanced; `AddEarning` calls it on its success path |
| `EarningController.UncreditedBreaksBalance` | src/controller/earning.ts:28-45 | from a balanced ledger, a failed credit after the insert leaves the wallet short by exactly the earned points, so the ledger is no longer balanced |
| `EarningController.History` | src/controller/earning.ts:52-57 | the listing is newest first and holds exactly the projections of the caller's rows |
| `EarningController.HistoryIsReverse` | src/controller/earning.ts:52-57 | on a table with distinct stamps increasing in arrival order the listing is the caller's rows read backwards |
| `EarningController.ListEarnings` | src/controller/earning.ts:48-70 | 500 iff the select fails; otherwise the caller's earning history |
| `UserController.ViewHidesPassword` | src/controller/user.ts:34-44 | the returned user object keeps every column but the password hash: two rows look alike iff they differ at most in it |
| `UserController.HasCredentials` | src/controller/user.ts:11 | the body passes iff email and password are both non-empty strings |
| `UserController.Login` | src/controller/user.ts:7-50 | success iff both credentials are truthy, the select succeeds, a row has the email and the first such row's hash matches; 400 iff email or password falsy; 500 iff the select fails; 401 invalidCredentials iff no row has the email; 401 invalidPassword iff the first row's hash does not match; success returns the token for that row's id and email and the row without its password; the store is not changed |
| `UserController.GetUserDetails` | src/controller/user.ts:52-83 | success iff the select succeeds and a row has the id; 500 iff the select fails; 404 with the invalidCredentials message iff no row has the id; success returns that row without its password, the only row with that id |
| `UserController.Merge` | src/controller/user.ts:96-106 | per column: a given name, phone, gender or dob replaces the stored one, a missing or `null` one keeps it; an uploaded file sets the image to the upload directory plus its name, no file keeps the stored image |
| `UserController.MergeNothing` | src/controller/user.ts:96-106 | a body with every field missing or null, in any mix, and no file leaves the profile exactly as stored |
| `UserController.MergeIdempotent` | src/controller/user.ts:96-106 | applying the same update to the updated row changes nothing more |
| `UserController.UpdateUser` | src/controller/user.ts:85-133 | success iff the select succeeds, a row has the id and the update succeeds; 404 iff no row has the id; 500 iff the select or update fails, with no change; success writes the merged profile to that row only and returns it |
| `UserController.OrNull` | src/controller/user.ts:156 | a falsy optional field (`dob`, `gender`) is stored as NULL, a truthy one as itself |
| `UserController.OpenAccount` | src/controller/user.ts:152-166 | the User insert and the zero Wallet insert are all-or-nothing; success appends one of each, the wallet carrying the new user's id, and keeps the ledger balanced; the user id and the clock advance iff the User INSERT ran, the wallet id iff the Wallet INSERT ran too, even when rolled back, and the other counters stay |
| `UserController.Complete` | src/controller/user.ts:141 | the body passes iff name, email, password and phone are non-empty strings and a file with a non-empty name was uploaded |
| `UserController.NewUser` | src/controller/user.ts:150-158 | the inserted row takes the next user id and the present stamp, the body's name, email and phone, the file's name, the hash of the password and no account details; dob and gender are the body's values when truthy and NULL otherwise |
| `UserController.CreateUser` | src/controller/user.ts:135-193 | for a complete body, success iff the select succeeds, no row has the email and neither insert nor the commit fails; 400 invalidRequest iff name, email, password, image file or phone is falsy; 400 emailExisted iff a row has the email; 500 iff the select or a write fails; every error changes nothing; success adds exactly one User row (hashed password, NULL for falsy dob and gender) and one zero Wallet for it and returns both ids; the user, wallet and clock counters advance exactly for the INSERTs that ran, even when rolled back, and the earning and transaction counters stay |
| `UserController.DeleteUser` | src/controller/user.ts:195-223 | success iff the select succeeds, a row has the id and no write fails; 400 userNotFound iff no row has the id; 500 iff the select or a write fails, with no change; success deletes the rows with that id and touches no other table |

## Left out

- The MySQL pool, connections and their release are not modelled. Neither is a failure of
  `getConnection` itself, which happens before the handlers' `try`. The store stands in for the
  database, and every handler runs to completion before the next one starts. The read-check-write
  race of `redeemPoints` therefore does not arise in the model.
- bcrypt and JWT are foreign libraries. `bcrypt.compare` and `generateJWT` are function
  parameters of `Login`, and `bcrypt.hash` is a function parameter of `CreateUser`.
  - Real bcrypt draws a salt and the token carries a timestamp; the model fixes both for one call.
  - bcrypt throwing is not modelled.
- The multer upload is only modelled as the uploaded file's name (`Option<string>`).
- Points and amounts are unbounded integers. The column types are not in the repository, so
  JSON numbers with a fraction are not modelled. Neither is a value too large for its column,
  where MySQL would reject the INSERT or UPDATE and the handler would answer 500.
- Row stamps are modelled as distinct and increasing, one per insert. MySQL's `CURRENT_TIMESTAMP`
  has one-second resolution, so two rows can share a stamp, and `ORDER BY createdAt DESC` leaves
  the order of such ties unspecified. The listings are newest first either way; the
  `HistoryIsReverse` lemmas hold only under the modelled stamping.
- A number sent where text is expected (such as a numeric `adId`) is not modelled: body text
  fields are strings.
- Email comparison is exact. MySQL's default collation compares case-insensitively.
- Any `ON DELETE CASCADE` the table definitions may declare is not part of this model, because the
  DDL is not in the repository. `deleteUser` leaves the user's Wallet, Earning and Transaction
  rows in place.
- MySQL does not give back auto-increment ids on rollback. The model's `Rollback` keeps its
  counters for the same reason.
- `createUser`'s response echoes `dob` and `gender` as the body sent them; the model keeps them as
  request fields. `updateUser` echoes the merged columns.
- Logging (`console.log`, `console.error`) is not modelled.
- The route files, the server bootstrap, the configuration and the random helpers of
  `src/utils/index.ts` are not part of this model.
- `TransactionController.RedeemPoints`: its contract does not state that exactly one wallet row
  changes. That fact is `Schema.AdjustOneRow`, which applies because `Valid()` keeps wallet ids
  increasing.
- `UserController.DeleteUser`: its contract states the deletion as `Except`. That exactly one row
  goes is `Database.DeleteRemovesOneRow`, which applies under `Valid()`.
