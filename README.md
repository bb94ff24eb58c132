# MoneyTrust wallet ledger — a Dafny model

MoneyTrust is a small investment wallet API written as an Express/MongoDB server.
A user tops up a balance (`saldo`), which an admin confirms. The user then buys
investment packages ("Paket A" to "Paket K"). Each package pays a fixed daily
income for a fixed number of days. No scheduler runs the payouts. They are
accrued lazily: each time the user claims, the server catches every unfinished
investment up, day by day, to the current time. Withdrawals go to a saved bank
account (`rekening`), and an admin confirms or rejects them as well.

This project models that core as one object, `Wallet.Store`. Its fields are the
four collections:

- `users`: a map from user id to balance and bank account;
- `products`: a map from product id to product;
- `investments`: a sequence in creation order;
- `txs`: the transaction ledger, a sequence in creation order, where a record's
  id is its position.

Every state-changing handler is a method on `Store` that takes the store from
one valid state to the next; the history read is the function
`Ledger.HistoryOf` of the ledger. `Store.Valid()` is the invariant every
method keeps:

- every product pays for at least one day, and its `totalIncome` is its daily
  income times its cycle;
- every investment refers to an existing product and keeps its schedule
  invariant (`Accrual.Consistent`);
- every balance equals the sum of that user's successful transactions
  (`Ledger.Net`): top-ups and payouts add, withdrawals and purchases subtract.

The payout claim is also specified as pure functions of the state and the
current time (module `Accrual`). The properties of the claim are proved about
those functions:

- the closed form of the catch-up count;
- the exact total over a full cycle;
- preservation of the schedule invariant;
- idempotence at a fixed time;
- that the payout records add exactly the returned total to the claimant and
  nothing to anyone else.

The claim's two loops (`Wallet.CatchUp` and `Wallet.AccruePayouts`) are proved
equal to those functions.

Modules:

- `Ledger` (ledger.dfy): the records, the error outcomes, the balance a ledger
  justifies, the newest-first history and the pending-transaction lookup the
  admin handlers share.
- `Catalog` (catalog.dfy): the seed catalog and the `totalIncome` rule.
- `Accrual` (accrual.dfy): the payout claim as functions, and its lemmas.
- `Wallet` (wallet.dfy): the `Store` class with the handlers, and the two claim
  loops.
- `Scenario` (wallet.dfy): a concrete top-up, confirm and buy walk, and a
  three-day claim.

Time is an integer number of milliseconds. The identity of the caller, the
current time (`now`) and the request fields are parameters. Handler outcomes
are the `Result` datatype instead of HTTP responses:

- `Validation` stands for the 400 responses about missing or too-small input;
- `InsufficientFunds` stands for the balance checks;
- `NotFound` and `AlreadyProcessed` stand for the admin lookups and the missing
  product;
- `NoBankAccount` stands for a withdrawal without a bank account;
- `UnknownUser` marks the paths where the server dereferences a user record
  that does not exist and the request fails with an exception.

## Model

| member | source | states |
|---|---|---|
| Ledger.HistoryOf | server.js:310-313 | the history holds exactly the requesting user's records, and no one else's |
| Ledger.HistoryCounts | server.js:310-313 | each of the user's records occurs in the history as often as in the ledger; other users' records occur zero times |
| Ledger.HistoryNewestFirst | server.js:311 | when ledger timestamps never decrease, the history is sorted by `createdAt` descending |
| Ledger.NetUpdate | server.js:326 | rewriting one ledger record changes a user's justified balance by exactly the difference of the old and new record's effect |
| Ledger.CheckPending | server.js:322-324 | the admin guard: Ok exactly when the id exists, has the handler's type and is pending; NotFound exactly when it is missing or of another type; AlreadyProcessed exactly when it is already resolved |
| Catalog.WithTotal | server.js:125 | a seeded product keeps the entry's fields, and its total income is daily income × cycle days |
| Catalog.SeedCatalog | server.js:113-125 | the seed list has eleven entries, each a valid 30-day product whose total is derived by the seed rule |
| Accrual.Prepare | server.js:141-144 | an unset next-payout cursor gets set; a set cursor is left alone |
| Accrual.Step | server.js:150-156 | one loop step counts one more day; it finishes exactly when the count reaches the cycle, keeps the cursor on the finishing step, and otherwise moves it on by exactly one day |
| Accrual.Accrue | server.js:147-157 | the catch-up loop terminates; afterwards the investment is finished or its cursor is after `now`; days paid grow by the payout count; a finished or not-yet-due investment is untouched; from `daysPaid < cycleDays`, days paid never exceed the cycle and the investment is finished exactly when they reach it |
| Accrual.DueFromSpec | server.js:147 | the periods n + j·DAY that are due at `now` are exactly those with j below the due count |
| Accrual.AccrueCount | server.js:147-156 | the number of payouts is min(cycleDays − daysPaid, periods due); the cursor has advanced one day per payout, except on the finishing payout |
| Accrual.ClaimOne | server.js:136-158 | an investment that is not the user's, is finished, or has no product is skipped unchanged with no payouts; otherwise it is prepared and caught up, with one payout record of the daily income per day paid, and the total is the count × daily income |
| Accrual.DueCountSpec | server.js:141-147 | the day boundaries startAt + k·DAY (k ≥ 1) passed at `now` are exactly k = 1 … DueCount |
| Accrual.FreshCatchUp | server.js:141-157 | for a freshly bought investment, the claim creates min(day boundaries passed, cycleDays) payouts, credits that many daily incomes, and finishes it exactly when the cycle is complete |
| Accrual.FullCycle | server.js:147-156 | a claim made after the whole cycle has elapsed pays exactly the product's totalIncome, in cycleDays payouts, and finishes the investment |
| Accrual.ClaimOneSettles | server.js:147 | after a claim, every investment that would still be accrued has its cursor after `now` |
| Accrual.SettledIsFixed | server.js:147 | a settled investment is left unchanged by a claim, with no payouts |
| Accrual.AccrueKeepsConsistent | server.js:141-156 | the catch-up loop preserves the schedule invariant (days paid within the cycle, finished exactly when complete, the cursor at startAt + (daysPaid + 1) days while running) |
| Accrual.ClaimOneKeepsConsistent | server.js:136-158 | a claim preserves every investment's schedule invariant |
| Accrual.ClaimUpTo | server.js:133-159 | after the first k investments are visited, each of them is its own claim outcome, and the rest are untouched |
| Accrual.ClaimNet | server.js:148-162 | the payout records of a claim add exactly the claim's total to the claimant's justified balance, and nothing to any other user's |
| Accrual.SettledUpTo | server.js:133-159 | a claim over fully settled investments changes nothing, creates no records and totals 0 |
| Accrual.ClaimIdempotent | server.js:147-164 | a second claim at the same time changes no investment, creates no payout and credits 0 |
| Wallet.CatchUp | server.js:147-157 | the while loop produces exactly the caught-up investment, appends one payout record per day paid, and returns count × daily income |
| Wallet.AccruePayouts | server.js:133-159 | the for loop over the investments produces exactly the claim's saved investments, payout records and grand total |
| Wallet.Store.ClaimDailyPayouts | server.js:131-165 | the store's investments and ledger become the claim's outcome; the balance is credited once, by the returned total, and only when it is positive; the store stays valid |
| Wallet.Store.ClaimKeepsValid | server.js:131-165 | the claim's new state satisfies the store invariant, the reconciled balances included |
| Wallet.Store.constructor | server.js:184 | registered users start with balance 0 and no bank account; the store starts valid |
| Wallet.Store.SeedProductsIfEmpty | server.js:110-128 | an empty catalog becomes the eleven seed products; a non-empty one is left alone |
| Wallet.Store.SaveBankAccount | server.js:225-230 | saving a bank account succeeds exactly when all three fields are non-empty, and then sets it on the user |
| Wallet.Store.BuyProduct | server.js:254-276 | a missing product is NotFound and a balance below the price is InsufficientFunds, with nothing changed; a purchase debits exactly the price, adds one investment with nothing paid, no cursor and not finished, and appends one successful buy record of the price |
| Wallet.Store.RequestTopup | server.js:279-293 | a top-up below 100000 is rejected; otherwise one pending top-up record is appended, its note names the payment method (SeaBank by default), and no balance changes |
| Wallet.Store.RequestWithdraw | server.js:295-308 | a withdrawal without a bank account, below 100000, or above the balance is rejected, in that order; otherwise one pending record addressed to the account is appended, and no balance changes |
| Wallet.Store.ConfirmTopup | server.js:321-329 | only a pending top-up can be confirmed: the owner is credited its amount and it becomes successful, with " confirmed" appended to its note after a separator; a resolved one is AlreadyProcessed |
| Wallet.Store.RejectTopup | server.js:331-338 | only a pending top-up can be rejected: it becomes failed, with " rejected" appended to its note after a separator, and no balance changes |
| Wallet.Store.ConfirmWithdraw | server.js:340-350 | only a pending withdrawal can be confirmed; it fails with nothing changed when the owner's balance no longer covers it; otherwise the amount is debited and it becomes successful, with " paid" appended to its note after a separator |
| Wallet.Store.RejectWithdraw | server.js:352-359 | only a pending withdrawal can be rejected: it becomes failed, with " rejected" appended to its note after a separator, and no balance changes |
| Scenario.ThreeDaysAfterPurchase | server.js:141-157 | Paket C claimed three days after purchase yields three payouts of 6500, a total of 19500, and a running investment due on day four |

## Left out

- Calendar arithmetic: `setDate(getDate() + 1)` (server.js:142-143, 155) is modelled as adding a fixed `DAY` of 86400000 ms. Local time, DST shifts and month lengths are not modelled.
- Persistence and concurrency: each handler is one atomic step on the store. The server's claim is not atomic: it does separate awaited database writes with no locking or transaction, so two concurrent claims for the same user can both pay the same days, and a failure part-way leaves part of the claim written. This double-claim hazard and these partial states are not modelled.
- Mongoose change tracking: the cursor is advanced in place with `setDate` (server.js:155). Mongoose does not track in-place changes to a Date, so the advanced cursor is probably persisted only on a claim where line 142 assigned it in the same call. On later claims `daysPaid` would be saved but the stored cursor not, and the next claim would pay the same days again, even at the same `now`. The model assumes `inv.save()` persists the whole working document, cursor included, so `Accrual.ClaimIdempotent` holds of the model only; none of this was executed.
- Payout record timing: the claim works on a copy of the investments and writes the ledger and investments at the end. The server instead writes each payout record as it goes. Without partial failures the final state is the same.
- Product lookup during a claim: for a missing product `findById` returns null, and the loop skips that investment (server.js:137-138); the model does the same, in `Accrual.ClaimOne`. A lookup that throws (a malformed id or a database error, server.js:137) ends the whole claim: the payout records and saves of the earlier investments are already written, and the balance is never incremented. Because the model treats the claim as one atomic step, it does not capture this. `Store.Valid()` requires every investment's product to exist, because the model has no product deletion, so that path is reachable only in the pure function.
- Authentication, the admin key, bcrypt, JWT, registration, login, change-password and invite codes (server.js:87-108, 173-246): the caller identity is a parameter. The constructor stands for the registered users, each with balance 0.
- The amount-0 `buy` record written at registration (server.js:187) is a side effect of the auth path and is not modelled.
- Request parsing: amounts are natural numbers. Non-numeric, negative or string amounts in the JSON body are not modelled.
- Wallet.Store.BuyProduct, Wallet.Store.RequestWithdraw and Wallet.Store.ConfirmWithdraw: a missing user record, which the server dereferences and fails on with an exception (server.js:259, 298, 345), is modelled as `Err(UnknownUser)` with nothing changed. ConfirmTopup's `$inc` on a missing user, and SaveBankAccount's `$set`, change nothing and still succeed.
- History order: ties between records with the same `createdAt` are returned latest-created first. MongoDB does not guarantee any order among ties.
- Ledger.HistoryNewestFirst: it assumes the ledger is in non-decreasing `createdAt` order. That holds when the clock never runs backwards, and the clock is a parameter.
- Routing, CORS, the HTTP status codes and JSON messages, the product list and profile read routes, and the claim route (server.js:315-318), which only calls `claimDailyPayouts`, are not modelled separately.
- The browser client (script.js) is presentation only and is not part of this model.
