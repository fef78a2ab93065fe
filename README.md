# Klicker economy model

A Dafny model of the game server in `server.js`. The server keeps one JSON
document with users, the upgrade catalog, the stock catalog, the users' stock
holdings (`userStocks`) and the `nextId` counters. Each request handler loads
that document, changes it in place and writes it back whole.

The model has these parts:

- The document is the class `Store.Document`. Its constructor builds the seed
  document that `loadDB` writes on first start.
- Each state-changing handler is one method of `Document`. Registration, click,
  upgrade purchase, balance sync and stock purchase are methods. So is one run
  of the price timer, which is a loop over the stocks as in the source.
- A method either returns a typed `Error` and leaves every field as it was, or
  makes an exactly specified update. A method may change only the fields its
  `modifies` clause names.
- `Document.Valid()` is the document invariant, and every handler preserves
  it. Ids are unique and below their counters, and usernames are unique.
  Incomes never fall below their starting values. Catalog prices stay at or
  above 0.01. Every holding belongs to a user and holds at least one share.
  Each (user, stock) pair has at most one holding.
- The login check, the session middleware and the investments listing read the
  document without changing it. They are pure functions over sequences, as
  are the record transitions the handlers apply (`Economy.Clicked`,
  `Economy.Upgraded`, `Economy.Upsert`) and the `Array.prototype.find`
  searches (`Lookup`).

Some modelling choices apply throughout:

- **Money.** Amounts are whole numbers of cents. Every seeded amount is a
  multiple of 0.01, and the halved upgrade boosts (1.00, 2.50 and 125.00) are
  exact. The invariant keeps the boosts even, so halving stays exact.
- **Ids.** Ids are integers. For integral ids, the loose `==` comparisons on
  upgrade and stock ids agree with integer equality. Ids that are not integers
  are outside the model (see "Left out").
- **Session cookie.** `parseInt` of the `userId` cookie is an `Option<int>`.
  `None` stands for an absent cookie or NaN.
- **Body fields.** A string field is an `Option<string>`. `None` means the
  field is absent, and the empty string counts as missing, as JavaScript
  truthiness does.
- **Resolved user.** Handlers behind the session middleware take the resolved
  user id with the precondition that it names a user. That is what
  `authenticateUser` guarantees before it calls them.

Modules, in dependency order:

- `Records`: the entities, the errors and their HTTP statuses, and money.
- `Lookup`: first-match search.
- `Identity`: new accounts, login and sessions.
- `Prices`: the price tick.
- `Invariants`: the document invariant.
- `Economy`: click, upgrade, upsert, listing and their lemmas.
- `Store`: the seed document and the handlers.
- `Scenarios`: worked figures on the seed catalog.

## Model

| member | source | states |
|---|---|---|
| Lookup.Find | server.js:56-62 | The first index whose element satisfies the predicate, or None exactly when no element does. |
| Lookup.FindUserById | server.js:56-58 | Finds a user with the given id, or None exactly when no user has it. |
| Lookup.FindUserByUsername | server.js:60-62 | Finds a user with exactly that username, or None exactly when no user has it. |
| Lookup.FindUpgrade | server.js:184 | Finds the catalog upgrade with the id, or None exactly when there is none. |
| Lookup.FindStock | server.js:255 | Finds the catalog stock with the id, or None exactly when there is none. |
| Lookup.FindHolding | server.js:230-232 | Finds a holding of that user in that stock, or None exactly when there is none. |
| Identity.NewUser | server.js:102-110 | A new account has the given id, name and hash, balance 100.00, income per click 1.00 and passive income 0.00. |
| Identity.Login | server.js:121-139 | A missing name or password gives 400, and 400 is given only then. Login succeeds exactly when both fields are given, the name is known and the password matches its hash, and the cookie id is then that user's. 401 occurs exactly when the name is unknown or the password does not match. |
| Identity.ResolveSession | server.js:73-86 | "Not logged in" occurs exactly for a missing, unparsable or zero cookie. The session resolves exactly when the cookie's nonzero id names an existing user, and it then returns that id. "Unknown user" occurs exactly for a nonzero id that no user has, and it is the only answer that clears the cookie. Every rejection is a 401. |
| Prices.NextPrice | server.js:279-282 | The new price is at least 0.01 and is the old price plus the draw unless it was clamped up to 0.01. With a price at or above 0.01 and a draw within 0.25, it moves by at most 0.25. |
| Prices.Ticked | server.js:278-283 | One tick keeps the number, order, ids, symbols and names of the stocks, leaves every price at 0.01 or more, and moves each price by at most 0.25 for a bounded draw. |
| Prices.TickRounds | server.js:276-284 | Any number of ticks keeps every stock's identity fields and order. |
| Prices.TickRoundsFloor | server.js:281 | No sequence of ticks takes a price below 0.01. |
| Prices.TickRoundsDrift | server.js:279-281 | After n ticks with bounded draws a price is within n * 0.25 of its start. |
| Invariants.UserUpdateKeepsValid | server.js:192-194 | Rewriting one user's record keeps the users well formed, provided id and name are kept and incomes do not drop below the starting values. |
| Economy.ClicksAccumulate | server.js:167-171 | n clicks raise the balance by exactly n times the income per click and change nothing else in the record. |
| Economy.UpgradesStack | server.js:192-194 | Buying an upgrade n times debits n prices and adds the boost n times to the click income and n halves to the passive income. |
| Economy.AffordsTimesIff | server.js:188-192 | n purchases of one upgrade in a row all pass the funds check exactly when the balance covers n prices. |
| Economy.Upsert | server.js:229-243 | After the purchase the pair has a holding. An existing one gains exactly one share and is otherwise unchanged, so it keeps its id and buy price. Otherwise a holding with the next id, one share and the paid price is appended and the counter moves on by one. Other holdings are unchanged, and at most one holding per pair is preserved. |
| Economy.UpsertKeepsHoldingsValid | server.js:229-243 | A purchase by an existing user keeps holding ids unique and below the counter, one holding per pair, and every quantity at least 1. The counter never decreases. |
| Economy.RepeatPurchaseOneHolding | server.js:230-237 | Two purchases of the same stock leave one holding with two shares at the first purchase's price, and use up one id. |
| Economy.OwnedBy | server.js:252-253 | Keeps exactly the holdings of the given user. |
| Economy.OwnedByAppend | server.js:252-253 | The filter keeps stored order: a holding added at the end of the store appears at the end of its owner's list and in no other list. |
| Economy.Investments | server.js:250-264 | The listing can fail only because a stock is missing from the catalog (the server answers 500). |
| Economy.InvestmentsOkIff | server.js:252-258 | The listing succeeds exactly when every holding of the user names a catalog stock. Other users' holdings are never looked up. |
| Economy.InvestmentsJoin | server.js:252-262 | A successful listing is the user's holdings in stored order, each with its stock's current symbol, name and price. |
| Economy.UnlistedPurchaseBreaksListing | server.js:218-258 | Buying a stock id that is not in the catalog makes that user's listing fail. |
| Store.PurchaseKeepsValid | server.js:222-243 | A stock purchase (debit plus upsert) turns a well-formed document into a well-formed one. |
| Store.Document.constructor | server.js:26-42 | The first document has no users and no holdings, the seed upgrade and stock catalogs, and counters (1, 6, 4, 1). It satisfies the invariant. |
| Store.Document.Register | server.js:91-119 | A missing field gives 400 and a taken name gives 409, and neither changes anything. Success happens exactly when the fields are given and the name is free. It appends one fresh account with the old user counter as id and increments that counter. The invariant is kept. |
| Store.Document.Click | server.js:167-173 | Only the caller's balance changes, by exactly the income per click. The invariant is kept. |
| Store.Document.BuyUpgrade | server.js:181-198 | An unknown upgrade gives 404 and a short balance gives 400, with no change. Otherwise the caller gets the upgraded record, with the price debited, the boost added and half the boost added to the passive income. The balance stays non-negative. The invariant is kept. |
| Store.Document.SaveBalance | server.js:201-210 | A non-number gives 400 with no change. Otherwise the caller's balance becomes exactly the given value and nothing else changes. |
| Store.Document.BuyStock | server.js:218-247 | A balance below the price gives 400 with no change. Otherwise the balance drops by exactly the price and stays non-negative, the holdings and counter become the upsert's, and the other counters are untouched. The invariant is kept. |
| Store.Document.AddShare | server.js:229-243 | The in-place upsert produces exactly `Economy.Upsert`'s holdings and counter and changes no other counter. |
| Store.Document.Tick | server.js:276-284 | The loop over the catalog leaves exactly the `Prices.Ticked` catalog, and the invariant is kept. |
| Scenarios.FirstSessionFigures | server.js:167-194 | One click takes a new account from 100.00 to 101.00. "Kupfer-Maus" then leaves 51.00 with click income 3.00 and passive income 1.00, and "Goldene Tastatur" is out of reach. |
| Scenarios.RepeatedPurchaseListing | server.js:229-262 | Two BTC purchases from the seed document list as one investment of two shares at 50000.00. |

## Left out

- Express routing, JSON body parsing, response texts and setting or clearing the cookie are not modelled. Errors carry their HTTP status (`Records.Status`), and `Records.ClearsCookie` marks the one error that clears the cookie.
- File persistence is not modelled. `loadDB` reading an existing file and `saveDB` writing it back are outside the model; the document is in-memory state.
- bcrypt's `hash` and `compare` are library calls. They enter as function parameters, and `created_at` (the clock) enters as a string parameter.
- The WebSocket connection handler, its initial price snapshot, the broadcast after each tick and the five-second `setInterval` timing are I/O and timers. `Math.random` is randomness, so each tick takes one draw per stock, in cents, as input.
- Interleavings of concurrent load/save cycles, which can lose updates, are event-loop concurrency and are not modelled.
- JavaScript floating point and the `toFixed(2)` rounding in the tick are not modelled. Amounts are integer cents, so a draw is already rounded.
- Store.Document.SaveBalance: the source's check accepts any value of type number, including NaN and Infinity. The model accepts every whole number of cents, and cannot represent NaN or Infinity.
- Store.Document.BuyStock: a price that `parseFloat` turns into NaN passes the source's funds check and writes NaN into the balance. Prices in the model are whole cents, so this path is not represented.
- Store.Document.BuyStock: the price is the client's, not the catalog's, and a negative one passes the funds check and credits the balance. This is modelled as written. The contract states that the new balance is exactly the old one minus the price, and that it is non-negative.
- Store.Document.BuyStock: stock ids that are not integers (a body value of `1.5` or `"2x"`) are not modelled. The source looks up the existing holding with a loose `==` against the raw body value but stores `parseInt(stockId)`. A repeat purchase with such an id therefore finds no holding and appends a second one for the same (user, stock) pair. So in the source the one-holding-per-pair part of `Document.Valid()` holds only for integral stock ids.
- Non-string `username`/`password` body values (numbers, objects) are not modelled. Fields are absent, empty or a string.
- `/logout` only clears the cookie. `GET /api/state`, `/api/upgrades` and `/api/stocks` only read the document. None of these changes state, and none is modelled.
- The 500 answers from the `catch` blocks of `/register` and `/login` come from library or file failures, which are outside the model.
- The embedded HTML page with its client-side one-second passive-income timer, `getLocalIP` and the startup logging are not modelled.
