/** The records of the game's document store: one datatype per kind of entry in
    the persisted document, the typed errors the request handlers answer with,
    and the money unit. Every amount is a whole number of cents (0.01). */
module Records {

  datatype Option<T> = None | Some(value: T)

  /** The handlers' rejections, each with the HTTP status the server sends. */
  datatype Error =
    | MissingFields      // 400: username or password absent or empty
    | NameTaken          // 409: registration with an existing username
    | BadCredentials     // 401: login with an unknown name or a wrong password
    | NotLoggedIn        // 401: no session cookie, or one that parses to 0 or NaN
    | UnknownUser        // 401: the cookie names no user; the cookie is cleared
    | UpgradeNotFound    // 404: no upgrade with the requested id
    | InsufficientFunds  // 400: the balance is below the price
    | InvalidBalance     // 400: the synced balance is not a number
    | StockMissing       // 500: a holding refers to a stock that is not in the catalog

  function Status(e: Error): int {
    match e
    case MissingFields => 400
    case NameTaken => 409
    case BadCredentials => 401
    case NotLoggedIn => 401
    case UnknownUser => 401
    case UpgradeNotFound => 404
    case InsufficientFunds => 400
    case InvalidBalance => 400
    case StockMissing => 500
  }

  predicate ClearsCookie(e: Error) {
    e == UnknownUser
  }

  datatype Result<T> = Ok(value: T) | Err(error: Error)

  /** An amount of money in cents. */
  type Cents = int

  datatype User = User(
    id: int,
    username: string,
    passwordHash: string,
    balance: Cents,
    incomePerClick: Cents,
    autoIncomePerSecond: Cents,
    createdAt: string)

  datatype Upgrade = Upgrade(id: int, name: string, price: Cents, incomeBoost: Cents)

  datatype Stock = Stock(id: int, symbol: string, name: string, price: Cents)

  /** A user's position in one stock (an entry of `userStocks`). */
  datatype Holding = Holding(id: int, userId: int, stockId: int, quantity: int, buyPrice: Cents)

  /** The next id to hand out, per kind of entry. */
  datatype NextId = NextId(user: int, stock: int, upgrade: int, userStock: int)

  /** A holding joined with the current catalog entry of its stock. */
  datatype Investment = Investment(holding: Holding, symbol: string, name: string, currentPrice: Cents)

  /** A request-body field the handler requires to be of type number. */
  datatype BodyNumber = Number(cents: Cents) | NotANumber
}
