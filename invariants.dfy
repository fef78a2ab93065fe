/** What holds of every document the server writes back: ids are unique and
    below their counters, usernames are unique, incomes never fall below their
    starting values, catalog prices stay at or above 0.01, and a user has at
    most one holding per stock. */
module Invariants {
  import opened Records
  import opened Identity
  import opened Prices

  predicate Distinct(ids: seq<int>) {
    forall i, j :: 0 <= i < j < |ids| ==> ids[i] != ids[j]
  }

  /** Every id was handed out by a counter that started at 1 and is now `next`. */
  predicate Issued(ids: seq<int>, next: int) {
    forall i :: 0 <= i < |ids| ==> 1 <= ids[i] < next
  }

  function UserIds(users: seq<User>): seq<int> {
    seq(|users|, i requires 0 <= i < |users| => users[i].id)
  }

  function UpgradeIds(upgrades: seq<Upgrade>): seq<int> {
    seq(|upgrades|, i requires 0 <= i < |upgrades| => upgrades[i].id)
  }

  function StockIds(stocks: seq<Stock>): seq<int> {
    seq(|stocks|, i requires 0 <= i < |stocks| => stocks[i].id)
  }

  function HoldingIds(holdings: seq<Holding>): seq<int> {
    seq(|holdings|, i requires 0 <= i < |holdings| => holdings[i].id)
  }

  predicate UsersValid(users: seq<User>, next: int) {
    && Distinct(UserIds(users))
    && Issued(UserIds(users), next)
    && (forall i, j :: 0 <= i < j < |users| ==> users[i].username != users[j].username)
    && (forall i :: 0 <= i < |users| ==>
          users[i].incomePerClick >= StartIncomePerClick && users[i].autoIncomePerSecond >= StartAutoIncomePerSecond)
  }

  /** Upgrade boosts are even numbers of cents, so that halving them for the
      passive income is exact. */
  predicate UpgradesValid(upgrades: seq<Upgrade>, next: int) {
    && Distinct(UpgradeIds(upgrades))
    && Issued(UpgradeIds(upgrades), next)
    && forall i :: 0 <= i < |upgrades| ==>
         upgrades[i].price >= 0 && upgrades[i].incomeBoost >= 0 && upgrades[i].incomeBoost % 2 == 0
  }

  predicate StocksValid(stocks: seq<Stock>, next: int) {
    && Distinct(StockIds(stocks))
    && Issued(StockIds(stocks), next)
    && forall i :: 0 <= i < |stocks| ==> stocks[i].price >= MinPrice
  }

  /** At most one holding per (user, stock) pair. */
  predicate OnePerPair(holdings: seq<Holding>) {
    forall i, j :: 0 <= i < j < |holdings| ==>
      !(holdings[i].userId == holdings[j].userId && holdings[i].stockId == holdings[j].stockId)
  }

  /** Holdings belong to existing users and hold at least one share. Their
      stock ids are NOT required to name a catalog stock: the purchase handler
      never checks them. */
  predicate HoldingsValid(holdings: seq<Holding>, userIds: seq<int>, next: int) {
    && Distinct(HoldingIds(holdings))
    && Issued(HoldingIds(holdings), next)
    && OnePerPair(holdings)
    && forall i :: 0 <= i < |holdings| ==> holdings[i].quantity >= 1 && holdings[i].userId in userIds
  }

  predicate DocumentValid(users: seq<User>, upgrades: seq<Upgrade>, stocks: seq<Stock>,
                          holdings: seq<Holding>, nextId: NextId) {
    && nextId.user >= 1 && nextId.stock >= 1 && nextId.upgrade >= 1 && nextId.userStock >= 1
    && UsersValid(users, nextId.user)
    && UpgradesValid(upgrades, nextId.upgrade)
    && StocksValid(stocks, nextId.stock)
    && HoldingsValid(holdings, UserIds(users), nextId.userStock)
  }

  /** Replacing a user's record by one with the same id and name, and incomes
      no lower than the starting ones, keeps the users well formed. */
  lemma UserUpdateKeepsValid(users: seq<User>, next: int, k: nat, u: User)
    requires UsersValid(users, next) && k < |users|
    requires u.id == users[k].id && u.username == users[k].username
    requires u.incomePerClick >= StartIncomePerClick && u.autoIncomePerSecond >= StartAutoIncomePerSecond
    ensures UsersValid(users[k := u], next) && UserIds(users[k := u]) == UserIds(users)
  {
    assert UserIds(users[k := u]) == UserIds(users);
  }

  lemma UserIdsAppend(users: seq<User>, u: User)
    ensures UserIds(users + [u]) == UserIds(users) + [u.id]
  {
  }
}
