/** Worked figures for two play sessions against the seed catalog: a first
    session with a click and upgrades, and repeated purchases of one stock. */
module Scenarios {
  import opened Records
  import opened Lookup
  import opened Identity
  import opened Economy
  import opened Store

  /** A new account clicks once (100.00 -> 101.00), buys "Kupfer-Maus" for
      50.00 (boost 2.00) and then cannot afford "Goldene Tastatur" (10000.00). */
  lemma FirstSessionFigures(passwordHash: string, createdAt: string)
    ensures var clicked := Clicked(NewUser(1, "alice", passwordHash, createdAt));
      var upgraded := Upgraded(clicked, SeedUpgrades[0]);
      && clicked.balance == 10100
      && upgraded.balance == 5100 && upgraded.incomePerClick == 300 && upgraded.autoIncomePerSecond == 100
      && upgraded.balance < SeedUpgrades[2].price
  {
  }

  /** Two purchases of BTC at 50000.00 by user 1 on an empty holdings list
      list as one investment with two shares at the first price. */
  lemma RepeatedPurchaseListing()
    ensures var (h1, n1) := Upsert([], SeedNextId.userStock, 1, 1, 5000000);
      var (h2, n2) := Upsert(h1, n1, 1, 1, 5000000);
      && n2 == 2
      && Investments(h2, SeedStocks, 1) == Ok([Investment(Holding(1, 1, 1, 2, 5000000), "BTC", "Bitcoin", 5000000)])
  {
    RepeatPurchaseOneHolding([], SeedNextId.userStock, 1, 1, 5000000, 5000000);
    var held := [Holding(1, 1, 1, 2, 5000000)];
    assert FindStock(SeedStocks, 1) == Some(0) by {
      assert SeedStocks[0].id == 1;
    }
    assert held[1..] == [];
    var inv := Investment(held[0], SeedStocks[0].symbol, SeedStocks[0].name, SeedStocks[0].price);
    assert Investments(held, SeedStocks, 1) == Ok([inv] + []);
    assert [inv] + [] == [inv];
  }
}
