/** The economy engine's transitions, as functions on records: what a click,
    an upgrade purchase and a stock purchase do to a user or to the holdings,
    and the investments listing (a filter over the holdings joined with the
    stock catalog). The handlers in module Store apply them to the document. */
module Economy {
  import opened Records
  import opened Lookup
  import opened Invariants

  // ---------------------------------------------------------------- clicks

  /** A user after one click: the balance grows by the income per click. */
  function Clicked(u: User): User {
    u.(balance := u.balance + u.incomePerClick)
  }

  function Clicks(u: User, n: nat): User
    decreases n
  {
    if n == 0 then u else Clicks(Clicked(u), n - 1)
  }

  /** n clicks from balance B give B + n * income per click, and touch nothing else. */
  lemma {:induction false} ClicksAccumulate(u: User, n: nat)
    ensures Clicks(u, n) == u.(balance := u.balance + n * u.incomePerClick)
    decreases n
  {
    if n > 0 {
      ClicksAccumulate(Clicked(u), n - 1);
      assert (n - 1) * u.incomePerClick + u.incomePerClick == n * u.incomePerClick;
    }
  }

  // ---------------------------------------------------------------- upgrades

  /** A user after paying for upgrade `g`: the boost is added to the income per
      click and half of it to the passive income per second. */
  function Upgraded(u: User, g: Upgrade): User {
    u.(balance := u.balance - g.price,
       incomePerClick := u.incomePerClick + g.incomeBoost,
       autoIncomePerSecond := u.autoIncomePerSecond + g.incomeBoost / 2)
  }

  function UpgradedTimes(u: User, g: Upgrade, n: nat): User
    decreases n
  {
    if n == 0 then u else UpgradedTimes(Upgraded(u, g), g, n - 1)
  }

  /** Whether n purchases of `g` in a row each pass the funds check. */
  predicate AffordsTimes(u: User, g: Upgrade, n: nat)
    decreases n
  {
    n == 0 || (u.balance >= g.price && AffordsTimes(Upgraded(u, g), g, n - 1))
  }

  /** Upgrades stack: buying one n times adds its boost n times. */
  lemma {:induction false} UpgradesStack(u: User, g: Upgrade, n: nat)
    ensures UpgradedTimes(u, g, n) ==
      u.(balance := u.balance - n * g.price,
         incomePerClick := u.incomePerClick + n * g.incomeBoost,
         autoIncomePerSecond := u.autoIncomePerSecond + n * (g.incomeBoost / 2))
    decreases n
  {
    if n > 0 {
      UpgradesStack(Upgraded(u, g), g, n - 1);
      assert (n - 1) * g.price + g.price == n * g.price;
      assert (n - 1) * g.incomeBoost + g.incomeBoost == n * g.incomeBoost;
      assert (n - 1) * (g.incomeBoost / 2) + g.incomeBoost / 2 == n * (g.incomeBoost / 2);
    }
  }

  /** n purchases in a row all succeed exactly when the balance covers n prices;
      in particular the first one fails when it cannot cover one. */
  lemma {:induction false} AffordsTimesIff(u: User, g: Upgrade, n: nat)
    requires g.price >= 0
    ensures AffordsTimes(u, g, n) <==> n == 0 || u.balance >= n * g.price
    decreases n
  {
    if n > 0 {
      AffordsTimesIff(Upgraded(u, g), g, n - 1);
      assert (n - 1) * g.price + g.price == n * g.price;
      assert n * g.price >= g.price by {
        assert (n - 1) * g.price >= 0;
      }
    }
  }

  // ---------------------------------------------------------------- stocks

  /** The holdings and the holding counter after user `userId` buys one share
      of `stockId` at `price`: an existing holding of that pair gains one share
      and keeps its buy price; otherwise a holding with the next id is appended. */
  function Upsert(holdings: seq<Holding>, next: int, userId: int, stockId: int, price: Cents)
    : (r: (seq<Holding>, int))
    ensures FindHolding(r.0, userId, stockId).Some?
    ensures |r.0| == |holdings| + (if FindHolding(holdings, userId, stockId).Some? then 0 else 1)
    ensures r.1 == next + (|r.0| - |holdings|)
    ensures FindHolding(holdings, userId, stockId).Some? ==>
      var j := FindHolding(holdings, userId, stockId).value;
      r.0[j] == holdings[j].(quantity := holdings[j].quantity + 1)
    ensures FindHolding(holdings, userId, stockId).None? ==>
      r.0[|holdings|] == Holding(next, userId, stockId, 1, price)
    ensures forall i :: 0 <= i < |holdings| && !(holdings[i].userId == userId && holdings[i].stockId == stockId) ==>
      r.0[i] == holdings[i]
    ensures OnePerPair(holdings) ==> OnePerPair(r.0)
  {
    match FindHolding(holdings, userId, stockId)
    case Some(j) =>
      var bumped := holdings[j := holdings[j].(quantity := holdings[j].quantity + 1)];
      assert bumped[j].userId == userId && bumped[j].stockId == stockId;
      (bumped, next)
    case None =>
      var appended := holdings + [Holding(next, userId, stockId, 1, price)];
      assert appended[|holdings|].userId == userId && appended[|holdings|].stockId == stockId;
      (appended, next + 1)
  }

  /** A purchase by an existing user keeps the holdings well formed: ids stay
      unique and below the counter, and each (user, stock) pair has at most one
      holding. */
  lemma UpsertKeepsHoldingsValid(holdings: seq<Holding>, userIds: seq<int>, next: int,
                                 userId: int, stockId: int, price: Cents)
    requires HoldingsValid(holdings, userIds, next) && next >= 1 && userId in userIds
    ensures var (h, n) := Upsert(holdings, next, userId, stockId, price);
            HoldingsValid(h, userIds, n) && n >= next
  {
    var (h, n) := Upsert(holdings, next, userId, stockId, price);
    match FindHolding(holdings, userId, stockId)
    case Some(j) =>
      assert HoldingIds(h) == HoldingIds(holdings);
    case None =>
      assert HoldingIds(h) == HoldingIds(holdings) + [next];
  }

  /** Buying the same stock twice leaves one holding for the pair, with two
      shares and the price of the first purchase. */
  lemma RepeatPurchaseOneHolding(holdings: seq<Holding>, next: int, userId: int, stockId: int,
                                 first: Cents, second: Cents)
    requires FindHolding(holdings, userId, stockId).None?
    ensures var (h1, n1) := Upsert(holdings, next, userId, stockId, first);
            var (h2, n2) := Upsert(h1, n1, userId, stockId, second);
            h2 == holdings + [Holding(next, userId, stockId, 2, first)] && n2 == next + 1
  {
    var h1 := holdings + [Holding(next, userId, stockId, 1, first)];
    assert FindHolding(h1, userId, stockId) == Some(|holdings|) by {
      assert h1[|holdings|].userId == userId && h1[|holdings|].stockId == stockId;
    }
  }

  // ---------------------------------------------------------------- investments

  /** The holdings of one user, in stored order. */
  function OwnedBy(holdings: seq<Holding>, userId: int): (r: seq<Holding>)
    ensures |r| <= |holdings|
    ensures forall h :: h in r <==> h in holdings && h.userId == userId
  {
    if holdings == [] then []
    else if holdings[0].userId == userId then [holdings[0]] + OwnedBy(holdings[1..], userId)
    else OwnedBy(holdings[1..], userId)
  }

  /** Filtering keeps the stored order: a holding added at the end of the
      store shows up at the end of its owner's list, and nowhere else. With
      `OwnedBy([], userId) == []` this fixes the filter completely. */
  lemma {:induction false} OwnedByAppend(holdings: seq<Holding>, h: Holding, userId: int)
    ensures OwnedBy(holdings + [h], userId) == OwnedBy(holdings, userId) + (if h.userId == userId then [h] else [])
    decreases |holdings|
  {
    if holdings == [] {
      assert holdings + [h] == [h];
      assert [h][1..] == [];
    } else {
      assert (holdings + [h])[0] == holdings[0];
      assert (holdings + [h])[1..] == holdings[1..] + [h];
      OwnedByAppend(holdings[1..], h, userId);
    }
  }

  /** `inv` carries the current symbol, name and price of its stock. */
  predicate Enriches(inv: Investment, stocks: seq<Stock>) {
    var j := FindStock(stocks, inv.holding.stockId);
    j.Some? && inv.symbol == stocks[j.value].symbol && inv.name == stocks[j.value].name
      && inv.currentPrice == stocks[j.value].price
  }

  /** Every holding of the user refers to a stock in the catalog. */
  predicate AllListed(holdings: seq<Holding>, stocks: seq<Stock>, userId: int) {
    forall i :: 0 <= i < |holdings| && holdings[i].userId == userId ==> FindStock(stocks, holdings[i].stockId).Some?
  }

  /** GET /api/investments: the user's holdings joined with the catalog. A
      holding whose stock is not in the catalog makes the handler throw, which
      the server answers with 500. */
  function Investments(holdings: seq<Holding>, stocks: seq<Stock>, userId: int): (r: Result<seq<Investment>>)
    ensures r.Err? ==> r.error == StockMissing
  {
    if holdings == [] then Ok([])
    else
      var rest := Investments(holdings[1..], stocks, userId);
      if holdings[0].userId != userId then rest
      else match FindStock(stocks, holdings[0].stockId)
        case None => Err(StockMissing)
        case Some(j) =>
          if rest.Err? then rest
          else Ok([Investment(holdings[0], stocks[j].symbol, stocks[j].name, stocks[j].price)] + rest.value)
  }

  /** The listing fails exactly when one of the user's holdings refers to a
      stock missing from the catalog; other users' holdings are never looked up. */
  lemma {:induction false} InvestmentsOkIff(holdings: seq<Holding>, stocks: seq<Stock>, userId: int)
    ensures Investments(holdings, stocks, userId).Ok? <==> AllListed(holdings, stocks, userId)
  {
    if holdings != [] {
      InvestmentsOkIff(holdings[1..], stocks, userId);
      if AllListed(holdings[1..], stocks, userId) {
        if holdings[0].userId == userId && FindStock(stocks, holdings[0].stockId).Some? {
          forall i | 0 <= i < |holdings| && holdings[i].userId == userId
            ensures FindStock(stocks, holdings[i].stockId).Some?
          {
            if i > 0 { assert holdings[i] == holdings[1..][i - 1]; }
          }
        } else if holdings[0].userId != userId {
          forall i | 0 <= i < |holdings| && holdings[i].userId == userId
            ensures FindStock(stocks, holdings[i].stockId).Some?
          {
            assert holdings[i] == holdings[1..][i - 1];
          }
        }
      } else {
        var i :| 0 <= i < |holdings[1..]| && holdings[1..][i].userId == userId
          && FindStock(stocks, holdings[1..][i].stockId).None?;
        assert holdings[i + 1] == holdings[1..][i];
      }
    }
  }

  /** A successful listing is exactly the user's holdings in stored order, each
      with its stock's current symbol, name and price. */
  lemma {:induction false} InvestmentsJoin(holdings: seq<Holding>, stocks: seq<Stock>, userId: int)
    requires Investments(holdings, stocks, userId).Ok?
    ensures var list := Investments(holdings, stocks, userId).value;
      && |list| == |OwnedBy(holdings, userId)|
      && forall i :: 0 <= i < |list| ==> list[i].holding == OwnedBy(holdings, userId)[i] && Enriches(list[i], stocks)
  {
    if holdings != [] {
      var rest := Investments(holdings[1..], stocks, userId);
      assert rest.Ok?;
      InvestmentsJoin(holdings[1..], stocks, userId);
      var list := Investments(holdings, stocks, userId).value;
      if holdings[0].userId != userId {
        assert list == rest.value;
        assert OwnedBy(holdings, userId) == OwnedBy(holdings[1..], userId);
      } else {
        var owned := OwnedBy(holdings, userId);
        assert owned == [holdings[0]] + OwnedBy(holdings[1..], userId);
        var j := FindStock(stocks, holdings[0].stockId).value;
        assert list == [Investment(holdings[0], stocks[j].symbol, stocks[j].name, stocks[j].price)] + rest.value;
        forall i | 0 <= i < |list|
          ensures list[i].holding == owned[i] && Enriches(list[i], stocks)
        {
          if i > 0 {
            assert list[i] == rest.value[i - 1] && owned[i] == OwnedBy(holdings[1..], userId)[i - 1];
          }
        }
      }
    }
  }

  /** The purchase handler does not check the stock id, so buying an id that is
      not in the catalog makes every later listing of that user fail. */
  lemma UnlistedPurchaseBreaksListing(holdings: seq<Holding>, stocks: seq<Stock>, next: int,
                                      userId: int, stockId: int, price: Cents)
    requires FindStock(stocks, stockId).None?
    ensures Investments(Upsert(holdings, next, userId, stockId, price).0, stocks, userId) == Err(StockMissing)
  {
    var hs := Upsert(holdings, next, userId, stockId, price).0;
    var j := FindHolding(hs, userId, stockId).value;
    assert hs[j].userId == userId && FindStock(stocks, hs[j].stockId).None?;
    InvestmentsOkIff(hs, stocks, userId);
  }
}
