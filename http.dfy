/** Request bodies and responses of the HTTP handlers, as the handlers see them. */
module Http {

  /** One field of a parsed JSON request body: missing, explicitly `null`, or present. */
  datatype Field<T> = Absent | Null | Given(value: T)

  /** JavaScript truthiness of a numeric field: missing, `null` and `0` are falsy. */
  predicate TruthyNumber(f: Field<int>) {
    f.Given? && f.value != 0
  }

  /** JavaScript truthiness of a text field: missing, `null` and `""` are falsy. */
  predicate TruthyText(f: Field<string>) {
    f.Given? && f.value != ""
  }

  /** The nullish-coalescing operator `f ?? d`. */
  function OrElse<T>(f: Field<T>, d: T): T {
    if f.Given? then f.value else d
  }

  /** What a handler sends: a success object, or an error status with one of the fixed messages. */
  datatype Response<T> = Ok(value: T) | Error(status: nat, message: ErrorMessage)

  const BadRequest: nat := 400
  const Unauthorized: nat := 401
  const NotFound: nat := 404
  const ServerError: nat := 500

  /** The keys of `constants.errors`. */
  datatype ErrorMessage =
    | EmailPassReq | InvalidCredentials | InvalidPassword | InternalServerError | UserNotFound
    | EmailExisted | MissingFields | InvalidRequest | DataIsReq | WalletNotFound | InsufficientFunds

  /** The keys of `constants.success`. */
  datatype SuccessMessage =
    | LoginSuccess | UpdateSuccess | AccountDeleted | AccountCreated | EarningRecordAdded | EarningList
    | PointsRedeemed

  /** The text sent for each error key. */
  function ErrorText(m: ErrorMessage): string {
    match m
    case EmailPassReq => "Email and password required"
    case InvalidCredentials => "Invalid email or password."
    case InvalidPassword => "Invalid password."
    case InternalServerError => "Something went wrong. Please try again later."
    case UserNotFound => "User not found"
    case EmailExisted => "Email already registered"
    case MissingFields => "points and adsid required"
    case InvalidRequest => "Name, email, password, phone and profile image are required"
    case DataIsReq => "pointsRedeemed and amountRedeemed are required"
    case WalletNotFound => "Wallet not found for this user"
    case InsufficientFunds => "Insufficient points in wallet"
  }

  /** The text sent for each success key. */
  function SuccessText(m: SuccessMessage): string {
    match m
    case LoginSuccess => "Login success"
    case UpdateSuccess => "Profile updated successfully"
    case AccountDeleted => "Account deleted successfully"
    case AccountCreated => "Account created successfully"
    case EarningRecordAdded => "Earning record added successfully"
    case EarningList => "User earnings fetched successfully"
    case PointsRedeemed => "Points redeemed successfully"
  }
}
