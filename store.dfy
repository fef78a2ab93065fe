/** The document store and the request handlers that change it. The whole
    persisted document is one object; each handler checks its input against the
    document and either answers with an error and leaves every field as it was,
    or updates the fields it names in its `modifies` clause and nothing else. */
module Store {
  import opened Records
  import opened Lookup
  import opened Identity
  import opened Prices
  import opened Invariants
  import opened Economy

  /** The catalog written on first start (amounts in cents). */
  const SeedUpgrades: seq<Upgrade> := [
    Upgrade(1, "Kupfer-Maus", 5000, 200),
    Upgrade(2, "Auto-Clicker V1", 20000, 500),
    Upgrade(3, "Goldene Tastatur", 1000000, 25000)
  ]

  const SeedStocks: seq<Stock> := [
    Stock(1, "BTC", "Bitcoin", 5000000),
    Stock(2, "ETH", "Ethereum", 250000),
    Stock(3, "SOL", "Solana", 12000),
    Stock(4, "LTC", "Litecoin", 8000),
    Stock(5, "ADA", "Cardano", 50)
  ]

  const SeedNextId: NextId := NextId(1, 6, 4, 1)

  /** The document after a successful stock purchase by the user at index `k`
      is well formed again. */
  lemma PurchaseKeepsValid(users: seq<User>, upgrades: seq<Upgrade>, stocks: seq<Stock>,
                           holdings: seq<Holding>, nextId: NextId, k: nat, stockId: int, price: Cents,
                           users': seq<User>, holdings': seq<Holding>, nextId': NextId)
    requires DocumentValid(users, upgrades, stocks, holdings, nextId) && k < |users|
    requires users' == users[k := users[k].(balance := users[k].balance - price)]
    requires (holdings', nextId'.userStock) == Upsert(holdings, nextId.userStock, users[k].id, stockId, price)
    requires nextId' == nextId.(userStock := nextId'.userStock)
    ensures DocumentValid(users', upgrades, stocks, holdings', nextId')
  {
    UserUpdateKeepsValid(users, nextId.user, k, users'[k]);
    assert UserIds(users)[k] == users[k].id;
    UpsertKeepsHoldingsValid(holdings, UserIds(users), nextId.userStock, users[k].id, stockId, price);
  }

  class Document {
    var users: seq<User>
    var upgrades: seq<Upgrade>
    var stocks: seq<Stock>
    var userStocks: seq<Holding>
    var nextId: NextId

    ghost predicate Valid()
      reads this
    {
      DocumentValid(users, upgrades, stocks, userStocks, nextId)
    }

    /** The document as first written: no users, the seed catalogs, no holdings. */
    constructor ()
      ensures Valid()
      ensures users == [] && upgrades == SeedUpgrades && stocks == SeedStocks
      ensures userStocks == [] && nextId == SeedNextId
    {
      users := [];
      upgrades := SeedUpgrades;
      stocks := SeedStocks;
      userStocks := [];
      nextId := SeedNextId;
    }

    /** POST /register. `hash` stands for bcrypt's salted hash and `createdAt`
        for the clock reading. */
    method Register(username: Option<string>, password: Option<string>, hash: string -> string, createdAt: string)
      returns (r: Result<int>)
      requires Valid()
      modifies this`users, this`nextId
      ensures Valid()
      ensures !Filled(username) || !Filled(password) ==> r == Err(MissingFields)
      ensures Filled(username) && Filled(password) && FindUserByUsername(old(users), username.value).Some? ==>
        r == Err(NameTaken)
      ensures r.Ok? <==>
        Filled(username) && Filled(password) && FindUserByUsername(old(users), username.value).None?
      ensures r.Err? ==> users == old(users) && nextId == old(nextId)
      ensures r.Ok? ==>
        && r.value == old(nextId.user)
        && users == old(users) + [NewUser(r.value, username.value, hash(password.value), createdAt)]
        && nextId == old(nextId).(user := old(nextId.user) + 1)
    {
      if !Filled(username) || !Filled(password) {
        return Err(MissingFields);
      }
      if FindUserByUsername(users, username.value).Some? {
        return Err(NameTaken);
      }
      var passwordHash := hash(password.value);
      var id := nextId.user;
      nextId := nextId.(user := nextId.user + 1);
      UserIdsAppend(users, NewUser(id, username.value, passwordHash, createdAt));
      users := users + [NewUser(id, username.value, passwordHash, createdAt)];
      r := Ok(id);
    }

    /** POST /api/click for the signed-in user `uid`. */
    method Click(uid: int)
      requires Valid() && FindUserById(users, uid).Some?
      modifies this`users
      ensures Valid()
      ensures var k := FindUserById(old(users), uid).value;
        && users == old(users)[k := Clicked(old(users)[k])]
        && users[k].balance == old(users)[k].balance + old(users)[k].incomePerClick
    {
      var k := FindUserById(users, uid).value;
      UserUpdateKeepsValid(users, nextId.user, k, Clicked(users[k]));
      users := users[k := Clicked(users[k])];
    }

    /** POST /api/buy-upgrade for the signed-in user `uid`. */
    method BuyUpgrade(uid: int, upgradeId: int) returns (r: Result<()>)
      requires Valid() && FindUserById(users, uid).Some?
      modifies this`users
      ensures Valid()
      ensures r.Err? ==> users == old(users)
      ensures FindUpgrade(upgrades, upgradeId).None? ==> r == Err(UpgradeNotFound)
      ensures FindUpgrade(upgrades, upgradeId).Some? ==>
        var g := upgrades[FindUpgrade(upgrades, upgradeId).value];
        var k := FindUserById(old(users), uid).value;
        && (old(users)[k].balance < g.price ==> r == Err(InsufficientFunds))
        && (old(users)[k].balance >= g.price ==>
              && r == Ok(())
              && users == old(users)[k := Upgraded(old(users)[k], g)]
              && users[k].balance >= 0
              && 2 * users[k].autoIncomePerSecond == 2 * old(users)[k].autoIncomePerSecond + g.incomeBoost)
    {
      var j := FindUpgrade(upgrades, upgradeId);
      if j.None? {
        return Err(UpgradeNotFound);
      }
      var g := upgrades[j.value];
      var k := FindUserById(users, uid).value;
      if users[k].balance < g.price {
        return Err(InsufficientFunds);
      }
      UserUpdateKeepsValid(users, nextId.user, k, Upgraded(users[k], g));
      users := users[k := Upgraded(users[k], g)];
      r := Ok(());
    }

    /** POST /api/save-balance for the signed-in user `uid`: the client's
        balance is stored as it is. */
    method SaveBalance(uid: int, balance: BodyNumber) returns (r: Result<()>)
      requires Valid() && FindUserById(users, uid).Some?
      modifies this`users
      ensures Valid()
      ensures balance.NotANumber? ==> r == Err(InvalidBalance) && users == old(users)
      ensures balance.Number? ==>
        var k := FindUserById(old(users), uid).value;
        r == Ok(()) && users == old(users)[k := old(users)[k].(balance := balance.cents)]
    {
      if balance.NotANumber? {
        return Err(InvalidBalance);
      }
      var k := FindUserById(users, uid).value;
      UserUpdateKeepsValid(users, nextId.user, k, users[k].(balance := balance.cents));
      users := users[k := users[k].(balance := balance.cents)];
      r := Ok(());
    }

    /** POST /api/buy-stock for the signed-in user `uid`, at the price the client
        sends. The stock id is not checked against the catalog. */
    method BuyStock(uid: int, stockId: int, price: Cents) returns (r: Result<()>)
      requires Valid() && FindUserById(users, uid).Some?
      modifies this`users, this`userStocks, this`nextId
      ensures Valid()
      ensures r.Err? ==> users == old(users) && userStocks == old(userStocks) && nextId == old(nextId)
      ensures var k := FindUserById(old(users), uid).value;
        && (old(users)[k].balance < price ==> r == Err(InsufficientFunds))
        && (old(users)[k].balance >= price ==>
              && r == Ok(())
              && users == old(users)[k := old(users)[k].(balance := old(users)[k].balance - price)]
              && users[k].balance >= 0
              && (userStocks, nextId.userStock) == Upsert(old(userStocks), old(nextId.userStock), uid, stockId, price)
              && nextId == old(nextId).(userStock := nextId.userStock))
    {
      var k := FindUserById(users, uid).value;
      if users[k].balance < price {
        return Err(InsufficientFunds);
      }
      users := users[k := users[k].(balance := users[k].balance - price)];
      AddShare(uid, stockId, price);
      PurchaseKeepsValid(old(users), upgrades, stocks, old(userStocks), old(nextId), k, stockId, price,
                         users, userStocks, nextId);
      r := Ok(());
    }

    /** The second half of POST /api/buy-stock, done in place as the handler
        does it: one more share on the user's holding of the stock, or a new
        holding with the next id. Its contract is that the result is the one
        `Economy.Upsert` describes. */
    method AddShare(uid: int, stockId: int, price: Cents)
      modifies this`userStocks, this`nextId
      ensures (userStocks, nextId.userStock) == Upsert(old(userStocks), old(nextId.userStock), uid, stockId, price)
      ensures nextId == old(nextId).(userStock := nextId.userStock)
    {
      var existing := FindHolding(userStocks, uid, stockId);
      if existing.Some? {
        var j := existing.value;
        userStocks := userStocks[j := userStocks[j].(quantity := userStocks[j].quantity + 1)];
      } else {
        userStocks := userStocks + [Holding(nextId.userStock, uid, stockId, 1, price)];
        nextId := nextId.(userStock := nextId.userStock + 1);
      }
    }

    /** One run of the five-second price timer. `deltas[i]` is the random draw
        for the i-th stock. */
    method Tick(deltas: seq<Cents>)
      requires Valid() && |deltas| == |stocks|
      modifies this`stocks
      ensures Valid()
      ensures stocks == Ticked(old(stocks), deltas)
    {
      var i := 0;
      while i < |stocks|
        invariant 0 <= i <= |stocks| == |old(stocks)|
        invariant forall j :: 0 <= j < i ==>
          stocks[j] == old(stocks)[j].(price := NextPrice(old(stocks)[j].price, deltas[j]))
        invariant forall j :: i <= j < |stocks| ==> stocks[j] == old(stocks)[j]
      {
        var newPrice := stocks[i].price + deltas[i];
        if newPrice < MinPrice {
          newPrice := MinPrice;
        }
        stocks := stocks[i := stocks[i].(price := newPrice)];
        i := i + 1;
      }
      assert StockIds(stocks) == StockIds(old(stocks));
    }
  }
}
