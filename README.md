# finapi ledger in Dafny

A model of the in-memory account ledger of the finapi service (`src/index.js`).
Customers are registered under a unique CPF (the Brazilian taxpayer number).
Each customer has a statement: an ordered, append-only list of "credit" and
"debit" operations. The balance is derived from the statement by a left fold.
Deposits append a credit without any check. A withdrawal appends a debit only
when the balance covers the amount.

Modules:

- `Wrappers` (`wrappers.dfy`): `Option`, `Result` and `Outcome`, which stand in for the handlers' error responses.
- `Statement` (`statement.dfy`): the `Operation` record; `getBalance` as `Balance`, a fold of `Apply` from 0; the statement-by-date filter `OnDay`; the two appending transitions `Deposited` and `Withdrawn`; and `Run`, the statement after a sequence of deposit and withdraw requests.
- `Registry` (`registry.dfy`): the `Customer` record; the CPF lookup `FindIndex` behind `verifyIfAccountExists` and `customers.some`; the invariants that CPFs and ids are distinct; and `Array.prototype.splice` as the delete handler calls it.
- `Accounts` (`accounts.dfy`): class `Ledger`, whose field `customers: seq<Customer>` is the module-level `customers` array. It has one method per handler. Each method's postcondition gives the whole new value of `customers` in terms of the old one. Every method keeps `Valid()`, which says that CPFs and ids are pairwise distinct. Client methods at the end (`DepositThenWithdrawScenario`, `OverdraftScenario`, `DeleteScenario`, `ByDateScenario`) show what a caller can prove from these contracts alone.

Modelling choices:

- A customer is a value in `customers`. Mutating the resolved object in place (`customer.name = name`, `customer.statement.push(...)`) becomes an update of `customers` at the resolved index. The object the middleware resolves is the array element itself, so the two are the same.
- An operation's `type` is kept as a string. `getBalance` adds for `"credit"` and subtracts for every other string.
- Amounts are `int` and days are `int`. `created_at` becomes the calendar day `createdDay`, and the handler's `new Date()` becomes a `today` parameter. The `date` query becomes a day number.
- The customer id is supplied by the caller as `id`. The precondition `FreshId` stands for the uniqueness of the generated uuid.

Where the code departs from the intended design of the service, the model follows the code:

- Delete removes the first customer, not the resolved one (see Findings).
- The design states that the balance never goes negative after any sequence of successful deposits and withdrawals. That holds only when every deposit amount is non-negative, because deposits are not checked. `RunKeepsBalanceNonNegative` proves the conditional form. `NegativeDepositOverdraws` shows a one-deposit statement with balance -1.

## Model

| member | source | states |
|---|---|---|
| Statement.FoldSnoc | src/index.js:22-28 | folding the reducer over `s + [op]` is applying it once more to the fold over `s` |
| Statement.BalanceSnoc | src/index.js:21-31 | the balance of `[]` is 0; appending a "credit" op adds its amount, appending any other type subtracts it |
| Statement.BalanceIsCreditsMinusDebits | src/index.js:21-31 | the fold equals the sum of credit amounts minus the sum of all other amounts |
| Statement.OnDay | src/index.js:85-89 | the filtered statement is no longer than the statement and every entry in it was created on the requested day |
| Statement.OnDayIsSubsequence | src/index.js:85-89 | the by-date view is an order-preserving subsequence of the statement |
| Statement.OnDayCounts | src/index.js:85-89 | each operation occurs in the view exactly as often as in the statement if it is of that day, and not at all otherwise |
| Statement.OnDaySnoc | src/index.js:85-89 | filtering a statement extended by one op is the old view, plus that op when its day matches |
| Statement.DepositRaisesBalance | src/index.js:95-106 | a deposit keeps every earlier entry, appends exactly one credit with the given description, amount and day, and raises the balance by the amount |
| Statement.WithdrawOutcome | src/index.js:112-127 | a withdrawal is refused exactly when the balance is below the amount; otherwise it appends one "Withdraw" debit and the new balance is old minus amount, which is at least 0 |
| Statement.RunAppendOnly | src/index.js:95-130 | after any sequence of deposit and withdraw requests the old statement is an unchanged prefix of the new one |
| Statement.RunKeepsBalanceNonNegative | src/index.js:95-130 | from a non-negative balance, requests whose deposits are non-negative never make the balance negative |
| Statement.NegativeDepositOverdraws | src/index.js:96-106 | an unchecked deposit of -1 on an empty statement gives balance -1 |
| Registry.FindIndex | src/index.js:11-18 | lookup gives the first position whose cpf matches, and none exactly when no customer has that cpf |
| Registry.FindIndexUnique | src/index.js:11-18 | with distinct CPFs, looking up a customer's CPF resolves that customer's position |
| Registry.AppendKeepsDistinct | src/index.js:41-52 | pushing a customer with an unregistered CPF and a fresh id keeps CPFs and ids distinct, and lookup then finds it at the end |
| Registry.UpdateKeepsDistinct | src/index.js:57-62 | replacing a customer by one with the same cpf and id keeps CPFs and ids distinct |
| Registry.Splice | src/index.js:69 | splice never lengthens the array; `splice(i, 1)` with `i` in range removes exactly element `i` |
| Registry.RemoveKeepsDistinct | src/index.js:69 | removing one customer keeps CPFs and ids distinct |
| Registry.SpliceObjectRemovesFirst | src/index.js:66-69 | `splice(customer, 1)` removes element 0, and the resolved customer stays registered exactly when it was not element 0 |
| Registry.SpliceObjectCounterexample | src/index.js:69 | with customers 111 then 222, deleting 222 resolves position 1 but leaves `[222]` |
| Registry.SpliceResolvedRemovesIt | src/index.js:66-69 | removing at the resolved position unregisters that CPF, shortens the array by one and keeps every other customer in order |
| Accounts.Ledger.constructor | src/index.js:7 | the ledger starts with no customers |
| Accounts.Ledger.GetAccount | src/index.js:33-36 | fails with not-found exactly when the CPF is unregistered; otherwise returns a registered customer with that CPF |
| Accounts.Ledger.CreateAccount | src/index.js:39-54 | fails, changing nothing, exactly when the CPF is taken; otherwise appends one customer with that cpf, name and fresh id and an empty statement; CPFs stay distinct |
| Accounts.Ledger.UpdateAccount | src/index.js:57-63 | not-found changes nothing; otherwise sets only the resolved customer's name; every cpf, id and statement, and every other customer, is unchanged |
| Accounts.Ledger.DeleteAccount | src/index.js:66-71 | not-found changes nothing; otherwise the ledger was non-empty and loses exactly its first element; the resolved CPF stays registered exactly when it was not first |
| Accounts.Ledger.DeleteResolvedAccount | src/index.js:66-71 | corrected delete: removes exactly the resolved customer, keeps all others, and the CPF is unregistered afterwards |
| Accounts.Ledger.GetStatement | src/index.js:73-76 | fails exactly when the CPF is unregistered; otherwise returns the statement of the customer with that CPF |
| Accounts.Ledger.GetStatementByDate | src/index.js:79-92 | fails exactly when the CPF is unregistered; otherwise returns an order-preserving subsequence of the statement holding exactly that day's operations |
| Accounts.Ledger.Deposit | src/index.js:95-109 | not-found changes nothing; otherwise appends one credit to the resolved customer only, and the balance rises by the amount |
| Accounts.Ledger.Withdraw | src/index.js:112-130 | not-found or balance below amount fails and changes nothing; otherwise appends one "Withdraw" debit to the resolved customer only, and the new balance is old minus amount, which is at least 0 |
| Accounts.Ledger.GetBalance | src/index.js:132-137 | fails exactly when the CPF is unregistered; otherwise returns the fold of the resolved customer's statement |

## Left out

- Express routing, middleware chaining, request and response objects, status codes, JSON bodies, response messages and `app.listen` (src/index.js:1-5, 139). Outcomes are the `Error` datatype instead.
- uuid generation (src/index.js:50) is a foreign library. The id is a parameter, and `FreshId` stands for its uniqueness.
- `new Date()`, the parsing of `date + " 00:00"` and `toDateString()` (src/index.js:83-88, 102, 123) depend on the clock, the locale and the timezone. Days are abstract integers supplied by the caller.
- JavaScript `number` arithmetic is floating point. Amounts are unbounded integers, and rounding is not modelled.
- JavaScript dynamic typing is not modelled. For example, a CPF sent as a number in the body never matches the string header, and a string `amount` turns `acc + amount` into string concatenation. All CPFs, names and descriptions are strings, and all amounts are integers.
- Concurrency is not modelled: the server handles one request at a time, and each method runs to completion.

## Findings

| source | as written | input that shows it | evidently intended | confidence | as-written member | corrected member |
|---|---|---|---|---|---|---|
| src/index.js:69 | `customers.splice(customer, 1)` passes the customer object as the start index; it converts to NaN and then 0, so the first customer is always removed | customers `111` (Alice) then `222` (Bob); DELETE /account with cpf `222` removes Alice and keeps Bob | remove the resolved customer at its own index | high (not executed) | Registry.SpliceObjectCounterexample | Accounts.Ledger.DeleteResolvedAccount |

The handler method `Accounts.Ledger.DeleteAccount` keeps the as-written behaviour, and `Registry.SpliceObjectRemovesFirst` states it for every ledger. The corrected `Accounts.Ledger.DeleteResolvedAccount` rests on `Registry.SpliceResolvedRemovesIt`, and `DeleteScenario` contrasts the two.
