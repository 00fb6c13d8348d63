/**
 * The account handlers: `login`, `getUserDetails`, `updateUser`, `createUser` and `deleteUser`.
 * bcrypt and the JWT signer are passed in as functions.
 */
module UserController {
  import opened Http
  import opened Schema
  import opened Ledger
  import opened Database

  /** The columns a handler sends back for a user: all of them except the password hash. */
  datatype UserView = UserView(
    id: nat, email: string, name: string, gender: Option<string>, profileImage: string, phone: string,
    accountDetailsId: Option<nat>, dob: Option<string>, createdAt: nat)

  function ViewOf(u: User): UserView {
    UserView(u.id, u.email, u.name, u.gender, u.profileImage, u.phone, u.accountDetailsId, u.dob, u.createdAt)
  }

  /** Two rows look the same from outside exactly when they differ at most in their password hash. */
  lemma ViewHidesPassword(u: User, v: User)
    ensures ViewOf(u) == ViewOf(v) <==> u.(password := v.password) == v
  {
  }

  // ---------------------------------------------------------------- login

  datatype Credentials = Credentials(email: Field<string>, password: Field<string>)

  datatype LoggedIn = LoggedIn(message: SuccessMessage, token: string, user: UserView)

  predicate HasCredentials(body: Credentials): (r: bool)
    ensures r <==> && body.email.Given? && body.email.value != ""
                   && body.password.Given? && body.password.value != ""
  {
    TruthyText(body.email) && TruthyText(body.password)
  }

  /**
   * `login`: looks the email up and checks the password against the first matching row's hash.
   * `matches(password, hash)` stands for `bcrypt.compare`, `sign(id, email)` for `generateJWT`.
   */
  method Login(db: Store, body: Credentials, matches: (string, string) -> bool, sign: (nat, string) -> string)
    returns (resp: Response<LoggedIn>)
    ensures resp == Error(BadRequest, EmailPassReq) <==> !HasCredentials(body)
    ensures HasCredentials(body) ==>
      var rows := Where(db.users, UserEmail, body.email.value);
      && (resp == Error(ServerError, InternalServerError) <==> Select(UserTable) in db.failing)
      && (resp == Error(Unauthorized, InvalidCredentials) <==> Select(UserTable) !in db.failing && rows == [])
      && (resp == Error(Unauthorized, InvalidPassword) <==>
            Select(UserTable) !in db.failing && rows != [] && !matches(body.password.value, rows[0].password))
    ensures resp.Ok? <==>
      && HasCredentials(body) && Select(UserTable) !in db.failing
      && var rows := Where(db.users, UserEmail, body.email.value);
      && rows != [] && matches(body.password.value, rows[0].password)
    ensures resp.Ok? ==>
      var rows := Where(db.users, UserEmail, body.email.value);
      && HasCredentials(body) && rows != [] && matches(body.password.value, rows[0].password)
      && rows[0].email == body.email.value
      && resp.value == LoggedIn(LoginSuccess, sign(rows[0].id, rows[0].email), ViewOf(rows[0]))
  {
    if !HasCredentials(body) {
      return Error(BadRequest, EmailPassReq);
    }
    var ok, rows := db.SelectUsersByEmail(body.email.value);
    if !ok {
      return Error(ServerError, InternalServerError);
    }
    if rows == [] {
      return Error(Unauthorized, InvalidCredentials);
    }
    var user := rows[0];
    if !matches(body.password.value, user.password) {
      return Error(Unauthorized, InvalidPassword);
    }
    var token := sign(user.id, user.email);
    return Ok(LoggedIn(LoginSuccess, token, ViewOf(user)));
  }

  // ---------------------------------------------------------------- getUserDetails

  datatype Details = Details(user: UserView)

  /** `getUserDetails`: the caller's row without its password; a missing row answers 404. */
  method GetUserDetails(db: Store, userId: nat) returns (resp: Response<Details>)
    ensures var rows := Where(db.users, UserId, userId);
      && (resp.Ok? <==> Select(UserTable) !in db.failing && rows != [])
      && (resp == Error(ServerError, InternalServerError) <==> Select(UserTable) in db.failing)
      && (resp == Error(NotFound, InvalidCredentials) <==> Select(UserTable) !in db.failing && rows == [])
      && (resp.Ok? ==> rows != [] && resp.value == Details(ViewOf(rows[0])) && resp.value.user.id == userId)
    ensures resp.Ok? && db.Valid() ==> |Where(db.users, UserId, userId)| == 1
  {
    var ok, rows := db.SelectUsersById(userId);
    if !ok {
      return Error(ServerError, InternalServerError);
    }
    if rows == [] {
      return Error(NotFound, InvalidCredentials);
    }
    if db.Valid() {
      WhereKeyUnique(db.users, UserId, userId);
    }
    return Ok(Details(ViewOf(rows[0])));
  }

  // ---------------------------------------------------------------- updateUser

  datatype ProfileBody = ProfileBody(name: Field<string>, gender: Field<string>, phone: Field<string>, dob: Field<string>)

  const UploadDir := "/uploads/profileImages/"

  /**
   * The new profile columns: `??` takes each text field from the body when it gives a value and keeps
   * the stored one for a missing or `null` field; the image is the uploaded file's path when there is
   * one and the stored image otherwise.
   */
  function Merge(u: User, body: ProfileBody, file: Option<string>): (p: Profile)
    ensures p.name == if body.name.Given? then body.name.value else u.name
    ensures p.gender == if body.gender.Given? then Some(body.gender.value) else u.gender
    ensures p.phone == if body.phone.Given? then body.phone.value else u.phone
    ensures p.dob == if body.dob.Given? then Some(body.dob.value) else u.dob
    ensures p.profileImage == if file.Some? then UploadDir + file.value else u.profileImage
  {
    Profile(
      OrElse(body.name, u.name),
      if body.gender.Given? then Some(body.gender.value) else u.gender,
      if file.Some? then UploadDir + file.value else u.profileImage,
      OrElse(body.phone, u.phone),
      if body.dob.Given? then Some(body.dob.value) else u.dob)
  }

  /** An update that gives no field (each missing or `null`, in any mix) and no file leaves the profile as it was. */
  lemma MergeNothing(u: User, body: ProfileBody)
    requires !body.name.Given? && !body.gender.Given? && !body.phone.Given? && !body.dob.Given?
    ensures Merge(u, body, None) == ProfileOf(u)
  {
  }

  /** Sending the same update again changes nothing more. */
  lemma MergeIdempotent(u: User, v: User, body: ProfileBody, file: Option<string>)
    requires ProfileOf(v) == Merge(u, body, file)
    ensures Merge(v, body, file) == ProfileOf(v)
  {
  }

  datatype Updated = Updated(message: SuccessMessage, user: Profile)

  /**
   * `updateUser`: merges the body into the caller's row and writes the five profile columns.
   * Both statements run on the pool, so an error changes nothing.
   */
  method UpdateUser(db: Store, userId: nat, body: ProfileBody, file: Option<string>) returns (resp: Response<Updated>)
    requires db.Idle()
    modifies db
    ensures db.Idle() && db.failing == old(db.failing) && db.next == old(db.next)
    ensures db.wallets == old(db.wallets) && db.earnings == old(db.earnings) && db.transactions == old(db.transactions)
    ensures var rows := Where(old(db.users), UserId, userId);
      && (resp.Ok? <==> Select(UserTable) !in db.failing && rows != [] && Update(UserTable) !in db.failing)
      && (resp == Error(NotFound, InvalidCredentials) <==> Select(UserTable) !in db.failing && rows == [])
      && (resp == Error(ServerError, InternalServerError) <==>
            Select(UserTable) in db.failing || (rows != [] && Update(UserTable) in db.failing))
      && (resp.Ok? ==>
            && rows != []
            && resp.value == Updated(UpdateSuccess, Merge(rows[0], body, file))
            && db.users == SetProfile(old(db.users), userId, resp.value.user))
    ensures resp.Error? ==> db.Contents() == old(db.Contents())
  {
    var ok, rows := db.SelectUsersById(userId);
    if !ok {
      return Error(ServerError, InternalServerError);
    }
    if rows == [] {
      return Error(NotFound, InvalidCredentials);
    }
    var updated := Merge(rows[0], body, file);
    ok := db.UpdateUser(userId, updated);
    if !ok {
      return Error(ServerError, InternalServerError);
    }
    return Ok(Updated(UpdateSuccess, updated));
  }

  // ---------------------------------------------------------------- createUser

  datatype SignUp = SignUp(
    name: Field<string>, email: Field<string>, phone: Field<string>, dob: Field<string>,
    gender: Field<string>, password: Field<string>)

  /** Name, email, password, phone and an uploaded image with a non-empty file name are all truthy. */
  predicate Complete(body: SignUp, file: Option<string>): (r: bool)
    ensures r <==> && body.name.Given? && body.name.value != ""
                   && body.email.Given? && body.email.value != ""
                   && body.password.Given? && body.password.value != ""
                   && body.phone.Given? && body.phone.value != ""
                   && file.Some? && file.value != ""
  {
    && TruthyText(body.name) && TruthyText(body.email) && TruthyText(body.password)
    && file.Some? && file.value != "" && TruthyText(body.phone)
  }

  /** `f || null`: a falsy field is stored as SQL `NULL`. */
  function OrNull(f: Field<string>): (r: Option<string>)
    ensures r.Some? <==> TruthyText(f)
    ensures r.Some? ==> r.value == f.value
  {
    if TruthyText(f) then Some(f.value) else None
  }

  /** The User row `createUser` inserts; `hash` stands for `bcrypt.hash` with the salt it drew. */
  function NewUser(next: Counters, body: SignUp, file: Option<string>, hash: string -> string): (u: User)
    requires Complete(body, file)
    ensures u.id == next.user && u.createdAt == next.clock && u.accountDetailsId.None?
    ensures u.email == body.email.value && u.email != ""
    ensures u.name == body.name.value && u.phone == body.phone.value && u.profileImage == file.value
    ensures u.password == hash(body.password.value)
    ensures u.dob == OrNull(body.dob) && u.gender == OrNull(body.gender)
  {
    User(next.user, body.name.value, body.email.value, body.phone.value, OrNull(body.dob), OrNull(body.gender),
         file.value, hash(body.password.value), None, next.clock)
  }

  /** The user object of the response, echoing the body as it came. */
  datatype CreatedUser = CreatedUser(
    id: nat, name: string, email: string, phone: string, dob: Field<string>, gender: Field<string>, profileImage: string)

  datatype Created = Created(message: SuccessMessage, user: CreatedUser, wallet: Wallet)

  /** The User INSERT ran and succeeded; its id stays used even if a later statement is rolled back. */
  predicate UserInserted(failing: set<Statement>) {
    Begin !in failing && Insert(UserTable) !in failing
  }

  predicate OpenFails(failing: set<Statement>) {
    Begin in failing || Insert(UserTable) in failing || Insert(WalletTable) in failing || Commit in failing
  }

  /**
   * The statements from `beginTransaction` to `commit` of `createUser`: the User row, then a Wallet
   * row at zero for it, both or neither.
   */
  method OpenAccount(db: Store, u: User) returns (ok: bool, userId: nat, walletId: nat)
    requires db.Idle()
    requires forall i :: 0 <= i < |db.users| ==> db.users[i].email != u.email
    modifies db
    ensures db.Idle() && db.failing == old(db.failing)
    ensures ok == !OpenFails(db.failing)
    ensures !ok ==> db.Contents() == old(db.Contents())
    ensures ok ==> && userId == old(db.next.user) && walletId == old(db.next.wallet)
                   && db.Contents() == old(db.Contents()).(
                        users := old(db.users) + [u.(id := userId, accountDetailsId := None, createdAt := old(db.next.clock))],
                        wallets := old(db.wallets) + [Wallet(walletId, userId, 0, 0)])
    ensures var user, wallet := UserInserted(db.failing), UserInserted(db.failing) && Insert(WalletTable) !in db.failing;
      db.next == old(db.next).(user := old(db.next.user) + (if user then 1 else 0),
                               wallet := old(db.next.wallet) + (if wallet then 1 else 0),
                               clock := old(db.next.clock) + (if user then 1 else 0))
    ensures old(Balanced(db.wallets, db.earnings, db.transactions)) ==> Balanced(db.wallets, db.earnings, db.transactions)
  {
    ghost var before, firstWallet := db.Contents(), db.next.wallet;
    userId, walletId := db.next.user, db.next.wallet;
    ok := db.BeginTransaction();
    if ok {
      ok, userId := db.InsertUser(u.name, u.email, u.phone, u.dob, u.gender, u.profileImage, u.password);
      if ok {
        ok, walletId := db.InsertWallet(userId, 0, 0);
        if ok {
          ok := db.CommitTransaction();
          if ok {
            if Balanced(before.wallets, before.earnings, before.transactions) {
              OpenWalletKeepsBalance(before.wallets, before.earnings, before.transactions, Wallet(walletId, userId, 0, 0));
            }
            return;
          }
          assert Commit in db.failing;
        } else {
          assert Insert(WalletTable) in db.failing;
        }
      } else {
        assert Insert(UserTable) in db.failing;
      }
    } else {
      assert Begin in db.failing;
    }
    db.Rollback();
  }

  /**
   * `createUser`: checks the required fields and that the email is free, then opens the account.
   * Any database error rolls back whatever the open transaction wrote and answers 500.
   */
  method CreateUser(db: Store, body: SignUp, file: Option<string>, hash: string -> string) returns (resp: Response<Created>)
    requires db.Idle()
    modifies db
    ensures db.Idle() && db.failing == old(db.failing)
    ensures db.earnings == old(db.earnings) && db.transactions == old(db.transactions)
    ensures resp.Error? ==> db.Contents() == old(db.Contents())
    ensures resp == Error(BadRequest, InvalidRequest) <==> !Complete(body, file)
    ensures Complete(body, file) ==>
      var rows := Where(old(db.users), UserEmail, body.email.value);
      && (resp.Ok? <==> Select(UserTable) !in db.failing && rows == [] && !OpenFails(db.failing))
      && (resp == Error(BadRequest, EmailExisted) <==> Select(UserTable) !in db.failing && rows != [])
      && (resp == Error(ServerError, InternalServerError) <==>
            Select(UserTable) in db.failing || (rows == [] && OpenFails(db.failing)))
    ensures resp.Ok? ==>
      && Complete(body, file)
      && (forall i :: 0 <= i < |old(db.users)| ==> old(db.users)[i].email != body.email.value)
      && var u := NewUser(old(db.next), body, file, hash);
      && var w := Wallet(old(db.next.wallet), u.id, 0, 0);
      && db.users == old(db.users) + [u]
      && db.wallets == old(db.wallets) + [w]
      && resp.value == Created(AccountCreated,
           CreatedUser(u.id, u.name, u.email, u.phone, body.dob, body.gender, u.profileImage), w)
    ensures var reached := Complete(body, file) && Select(UserTable) !in db.failing
                          && Where(old(db.users), UserEmail, body.email.value) == [];
      var user, wallet := reached && UserInserted(db.failing), reached && UserInserted(db.failing) && Insert(WalletTable) !in db.failing;
      db.next == old(db.next).(user := old(db.next.user) + (if user then 1 else 0),
                               wallet := old(db.next.wallet) + (if wallet then 1 else 0),
                               clock := old(db.next.clock) + (if user then 1 else 0))
    ensures old(Balanced(db.wallets, db.earnings, db.transactions)) ==> Balanced(db.wallets, db.earnings, db.transactions)
  {
    if !Complete(body, file) {
      return Error(BadRequest, InvalidRequest);
    }
    var ok, existing := db.SelectUsersByEmail(body.email.value);
    if !ok {
      db.Rollback();
      return Error(ServerError, InternalServerError);
    }
    if existing != [] {
      return Error(BadRequest, EmailExisted);
    }
    var u := NewUser(db.next, body, file, hash);
    var userId, walletId;
    ok, userId, walletId := OpenAccount(db, u);
    if !ok {
      return Error(ServerError, InternalServerError);
    }
    return Ok(Created(AccountCreated,
                      CreatedUser(userId, u.name, u.email, u.phone, body.dob, body.gender, u.profileImage),
                      Wallet(walletId, userId, 0, 0)));
  }

  // ---------------------------------------------------------------- deleteUser

  datatype Deleted = Deleted(message: SuccessMessage, success: bool)

  predicate RemoveFails(failing: set<Statement>) {
    Begin in failing || Delete(UserTable) in failing || Commit in failing
  }

  /**
   * `deleteUser`: removes the caller's User row inside a transaction. Wallet, Earning and Transaction
   * rows are left as they are.
   */
  method DeleteUser(db: Store, userId: nat) returns (resp: Response<Deleted>)
    requires db.Idle()
    modifies db
    ensures db.Idle() && db.failing == old(db.failing) && db.next == old(db.next)
    ensures db.wallets == old(db.wallets) && db.earnings == old(db.earnings) && db.transactions == old(db.transactions)
    ensures resp.Error? ==> db.Contents() == old(db.Contents())
    ensures var rows := Where(old(db.users), UserId, userId);
      && (resp.Ok? <==> Select(UserTable) !in db.failing && rows != [] && !RemoveFails(db.failing))
      && (resp == Error(BadRequest, UserNotFound) <==> Select(UserTable) !in db.failing && rows == [])
      && (resp == Error(ServerError, InternalServerError) <==>
            Select(UserTable) in db.failing || (rows != [] && RemoveFails(db.failing)))
      && (resp.Ok? ==> rows != [] && resp.value == Deleted(AccountDeleted, true)
                       && db.users == Except(old(db.users), UserId, userId))
  {
    var ok, rows := db.SelectUsersById(userId);
    if !ok {
      db.Rollback();
      return Error(ServerError, InternalServerError);
    }
    if rows == [] {
      return Error(BadRequest, UserNotFound);
    }
    ok := db.BeginTransaction();
    if ok {
      ok := db.DeleteUser(userId);
      if ok {
        ok := db.CommitTransaction();
        if ok {
          return Ok(Deleted(AccountDeleted, true));
        }
        assert Commit in db.failing;
      } else {
        assert Delete(UserTable) in db.failing;
      }
    } else {
      assert Begin in db.failing;
    }
    db.Rollback();
    return Error(ServerError, InternalServerError);
  }
}
