/** The `Array.prototype.find` searches the handlers run over the document's
    collections. Each answers with the index of the first matching entry, so that
    a handler can update that entry in place. */
module Lookup {
  import opened Records

  /** The index of the first element of `s` that satisfies `p`, if any. */
  function Find<T>(s: seq<T>, p: T -> bool): (r: Option<nat>)
    ensures r.Some? ==> r.value < |s| && p(s[r.value])
    ensures r.Some? ==> forall j :: 0 <= j < r.value ==> !p(s[j])
    ensures r.None? <==> forall j :: 0 <= j < |s| ==> !p(s[j])
  {
    if |s| == 0 then None
    else if p(s[0]) then Some(0)
    else match Find(s[1..], p)
      case Some(k) => Some(k + 1)
      case None => None
  }

  /** The user whose id is `id` (strict equality on numbers). */
  function FindUserById(users: seq<User>, id: int): (r: Option<nat>)
    ensures r.Some? ==> r.value < |users| && users[r.value].id == id
    ensures r.None? <==> forall i :: 0 <= i < |users| ==> users[i].id != id
  {
    Find(users, (u: User) => u.id == id)
  }

  /** The user whose username is exactly `name` (case-sensitive). */
  function FindUserByUsername(users: seq<User>, name: string): (r: Option<nat>)
    ensures r.Some? ==> r.value < |users| && users[r.value].username == name
    ensures r.None? <==> forall i :: 0 <= i < |users| ==> users[i].username != name
  {
    Find(users, (u: User) => u.username == name)
  }

  /** The catalog entry for an upgrade id. */
  function FindUpgrade(upgrades: seq<Upgrade>, id: int): (r: Option<nat>)
    ensures r.Some? ==> r.value < |upgrades| && upgrades[r.value].id == id
    ensures r.None? <==> forall i :: 0 <= i < |upgrades| ==> upgrades[i].id != id
  {
    Find(upgrades, (g: Upgrade) => g.id == id)
  }

  /** The catalog entry for a stock id. */
  function FindStock(stocks: seq<Stock>, id: int): (r: Option<nat>)
    ensures r.Some? ==> r.value < |stocks| && stocks[r.value].id == id
    ensures r.None? <==> forall i :: 0 <= i < |stocks| ==> stocks[i].id != id
  {
    Find(stocks, (s: Stock) => s.id == id)
  }

  /** The holding of user `userId` in stock `stockId`. */
  function FindHolding(holdings: seq<Holding>, userId: int, stockId: int): (r: Option<nat>)
    ensures r.Some? ==>
      r.value < |holdings| && holdings[r.value].userId == userId && holdings[r.value].stockId == stockId
    ensures r.None? <==> forall i :: 0 <= i < |holdings| ==>
      !(holdings[i].userId == userId && holdings[i].stockId == stockId)
  {
    Find(holdings, (h: Holding) => h.userId == userId && h.stockId == stockId)
  }
}
