/** Accounts and sessions: the starting values of a new account, the login
    check and the session middleware that turns the `userId` cookie into a user.
    Password hashing and comparison are the bcrypt library's; they enter as
    function parameters. */
module Identity {
  import opened Records
  import opened Lookup

  const StartBalance: Cents := 10000             // 100.00
  const StartIncomePerClick: Cents := 100        // 1.00
  const StartAutoIncomePerSecond: Cents := 0     // 0.00

  /** A body field counts as given when it is present and not the empty string. */
  predicate Filled(field: Option<string>) {
    field.Some? && field.value != ""
  }

  /** The record registration appends for a fresh account. */
  function NewUser(id: int, username: string, passwordHash: string, createdAt: string): (u: User)
    ensures u.id == id && u.username == username && u.passwordHash == passwordHash
    ensures u.balance == 10000 && u.incomePerClick == 100 && u.autoIncomePerSecond == 0
  {
    User(id, username, passwordHash, StartBalance, StartIncomePerClick, StartAutoIncomePerSecond, createdAt)
  }

  /** POST /login: on success the id the `userId` cookie is set to.
      `compare(password, hash)` stands for bcrypt's comparison. */
  function Login(users: seq<User>, username: Option<string>, password: Option<string>,
                 compare: (string, string) -> bool): (r: Result<int>)
    ensures !Filled(username) || !Filled(password) ==> r == Err(MissingFields)
    ensures r.Ok? <==>
      Filled(username) && Filled(password) && FindUserByUsername(users, username.value).Some? &&
      compare(password.value, users[FindUserByUsername(users, username.value).value].passwordHash)
    ensures r.Ok? ==>
      Filled(username) && Filled(password) &&
      var k := FindUserByUsername(users, username.value);
      k.Some? && users[k.value].id == r.value && compare(password.value, users[k.value].passwordHash)
    ensures r == Err(BadCredentials) <==>
      Filled(username) && Filled(password) &&
      (FindUserByUsername(users, username.value).None? ||
       !compare(password.value, users[FindUserByUsername(users, username.value).value].passwordHash))
    ensures r.Err? ==> (Status(r.error) == 400 <==> !Filled(username) || !Filled(password))
    ensures r.Err? ==> Status(r.error) == 400 || Status(r.error) == 401
  {
    if !Filled(username) || !Filled(password) then Err(MissingFields)
    else match FindUserByUsername(users, username.value)
      case None => Err(BadCredentials)
      case Some(i) =>
        if compare(password.value, users[i].passwordHash) then Ok(users[i].id) else Err(BadCredentials)
  }

  /** The session middleware in front of every /api route. `cookie` is what
      `parseInt` makes of the `userId` cookie: None when it is absent or does not
      start with a number (NaN). On success the handlers run for the returned id. */
  function ResolveSession(users: seq<User>, cookie: Option<int>): (r: Result<int>)
    ensures r == Err(NotLoggedIn) <==> cookie.None? || cookie == Some(0)
    ensures r.Ok? ==> cookie == Some(r.value) && FindUserById(users, r.value).Some?
    ensures r == Err(UnknownUser) <==>
      cookie.Some? && cookie.value != 0 && forall i :: 0 <= i < |users| ==> users[i].id != cookie.value
    ensures r.Ok? || r == Err(NotLoggedIn) || r == Err(UnknownUser)
    ensures r.Ok? <==> cookie.Some? && cookie.value != 0 && FindUserById(users, cookie.value).Some?
    ensures r.Err? ==> Status(r.error) == 401
    ensures r.Err? && ClearsCookie(r.error) <==>
      cookie.Some? && cookie.value != 0 && FindUserById(users, cookie.value).None?
  {
    if cookie.None? || cookie.value == 0 then Err(NotLoggedIn)
    else if FindUserById(users, cookie.value).None? then Err(UnknownUser)
    else Ok(cookie.value)
  }
}
