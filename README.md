# aws-wallet: wallet balances and their guards, in Dafny

This project models the server side of aws-wallet, a personal-finance API. A user owns wallets.
A wallet holds incomes and expenses, and carries a `startingBalance` and a `currentBalance`.

The store is three DynamoDB tables: wallets, incomes and expenses. Each is keyed by the row's `id`.
Here it is a class `Store.Database` with three map fields. One write (`put`, `update`, `delete`) is
an `Item`. `transactWrite` applies a list of items all or nothing. The flag `available` stands for
the store rejecting a call for its own reasons; the model then changes nothing.

The services (`walletService.ts`, `incomeService.ts`, `expenseService.ts`) are methods on that
store:

- every income or expense mutation writes its row and moves its wallet's balance in one
  transaction;
- `deleteWallet` builds one transaction that deletes every income, every expense and the wallet.

The handlers (`walletLambda.ts`, `incomeLambda.ts`, `expenseLambda.ts`) run checks in a fixed
order before calling the store:

1. path parameter present;
2. row found;
3. row in the wallet named in the path;
4. row owned by the caller.

Those checks are the pure functions `Access.WalletAccess` and `Access.EntryAccess`. The handlers are
methods returning a status code and a body.

The central invariant is `Ledger.Consistent`:

- every wallet's `currentBalance` equals its `startingBalance` plus its incomes minus its expenses;
- every income and expense points at an existing wallet.

`Access.Sound` adds `Owned`: every income and expense carries its wallet owner's `userId`. Every
handler keeps `Sound`. Creates need an id that is not in use. The ids are random numbers below
1000000, and a put overwrites a row with the same id. `EntryService.CollidingIdBreaksBalance`
shows that a taken id breaks the invariant.

Behaviour of the source that the model keeps as written:

- The income and expense create handlers do not check `walletId` for presence. A missing or empty
  one makes the wallet read throw, and the handler answers 500 "Error creating income/expense".
- The update and delete handlers of incomes and expenses never read the wallet. They compare the
  row's `walletId` and `userId` only. While the tables are `Sound` this is enough
  (`Access.EntryGrantImpliesWalletOwner`). Otherwise the balance update of a vanished wallet fails
  the transaction, and the answer is 500.
- expenseLambda.ts line 212 answers a missing `walletId` in the delete handler with the message
  "Expense ID is missing in the request".
- walletLambda.ts repeats the store calls of walletService.ts inline. The handlers are modelled
  by calling `WalletService`, which does the same writes.
- An update of an income or expense whose row has vanished creates the row. A DynamoDB update
  is an upsert. The attributes it does not set read as "" in the model.
- incomeLambda.ts line 31 passes the body where `createIncome` expects the wallet id (see
  Findings).

## Model

| member | source | states |
|---|---|---|
| Models.Wallet.Rebased | server/services/walletService.ts:76 | the update expression of updateWallet never touches `id`, `userId` or `createdAt` |
| Models.Entry.Revised | server/services/incomeService.ts:154-160 | the row after an update keeps `id`, `walletId`, `userId` and `createdAt`; only name, type, amount and updatedAt change |
| Store.Adjust | server/services/incomeService.ts:39-54 | adding to a balance changes that wallet's `currentBalance` by exactly `delta`, keeps its `startingBalance`, and leaves every other wallet and both entry tables as they were |
| Store.OfWallet | server/services/incomeService.ts:76-92 | the listing holds exactly the rows whose `walletId` is the given one, unchanged |
| Store.OfUser | server/services/walletService.ts:47-62 | the listing holds exactly the wallets whose `userId` is the given one, unchanged |
| Store.ApplyConcat | server/services/walletService.ts:139-144 | a transaction of `a + b` is `a` followed by `b`, and fails if either part fails |
| Store.ApplyItemsKeepsKeyed | server/services/walletService.ts:139-144 | no committed transaction stores a row under a key other than its own id |
| Store.Database.Write | server/services/walletService.ts:17-28 | a single put or update commits exactly when the store is available and the item applies; otherwise the tables are unchanged |
| Store.Database.TransactWrite | server/services/incomeService.ts:56-73 | a transaction commits every item or none: the new tables are the items applied in order, or the old tables |
| Ledger.TotalRemove | server/services/incomeService.ts:166-205 | the sum of a wallet's rows splits at any row, whichever row is removed |
| Ledger.TotalIgnores | server/services/walletService.ts:103-148 | removing rows of other wallets leaves a wallet's sum unchanged |
| Ledger.BalanceFromListings | server/services/incomeService.ts:76-95 | in balanced tables a wallet's balance is its starting balance plus the sum of its income listing minus the sum of its expense listing |
| EntryService.CreateDelta | server/services/incomeService.ts:44 | a create moves the balance by `+amount` for an income and `-amount` for an expense |
| EntryService.UpdateDelta | server/services/incomeService.ts:121 | the update delta (`-old + new` for an income, `old - new` for an expense) equals deleting the old row plus creating the new one |
| EntryService.DeleteDelta | server/services/incomeService.ts:181 | a delete moves the balance by the opposite of the create |
| EntryService.NewEntry | server/services/incomeService.ts:25-32 | the stored row takes id, walletId and userId from the arguments, whatever the body holds, and has `createdAt == updatedAt` |
| EntryService.AfterCreate | server/services/incomeService.ts:22-74 | a committed create adds the row to its table, leaves the other table alone and moves only its wallet, by `CreateDelta` |
| EntryService.AfterUpdate | server/services/incomeService.ts:97-164 | a committed update revises only the target row, leaves the other table alone and moves only the named wallet |
| EntryService.AfterDelete | server/services/incomeService.ts:166-209 | a committed delete removes only the target row and moves only the named wallet, by `DeleteDelta` |
| EntryService.CreateCommits | server/services/incomeService.ts:56-68 | the two-item create transaction succeeds exactly when the wallet exists, with effect `AfterCreate` |
| EntryService.UpdateCommits | server/services/incomeService.ts:140-152 | the two-item update transaction succeeds exactly when the named wallet exists, with effect `AfterUpdate` |
| EntryService.DeleteCommits | server/services/incomeService.ts:193-205 | the two-item delete transaction succeeds exactly when the named wallet exists, with effect `AfterDelete` |
| EntryService.CreateKeepsConsistent | server/services/incomeService.ts:22-74 | with a fresh id and an existing wallet, a create keeps every balance equal to its sums and every row linked |
| EntryService.UpdateKeepsConsistent | server/services/incomeService.ts:97-164 | an update of the current row, charged to its own wallet, keeps every balance equal to its sums |
| EntryService.DeleteKeepsConsistent | server/services/incomeService.ts:166-209 | a delete of the current row, charged to its own wallet, keeps every balance equal to its sums |
| EntryService.CreateThenDeleteRestores | server/services/incomeService.ts:39-54 | creating an entry and deleting it restores the wallet's balance and, for a fresh id, the entry table |
| EntryService.CollidingIdBreaksBalance | server/services/expenseService.ts:24-37 | there are consistent tables in which a create under a taken id leaves the tables inconsistent |
| WalletService.NewWallet | server/services/walletService.ts:8-15 | a new wallet has `currentBalance == startingBalance` from the body, the caller's userId, the generated id and `createdAt == updatedAt` |
| WalletService.StartingBalanceDiff | server/services/walletService.ts:70 | re-basing by the diff keeps `currentBalance - startingBalance` |
| WalletService.Cascaded | server/services/walletService.ts:103-148 | after the cascade the wallet and every income and expense of it are gone, and every other row is untouched |
| WalletService.CreateWallet | server/services/walletService.ts:5-29 | the put commits exactly when the store is available; the result is `NewWallet`, stored under its id; otherwise nothing changes |
| WalletService.GetWallet | server/services/walletService.ts:31-45 | the row under the key, if any; an empty key throws |
| WalletService.GetWallets | server/services/walletService.ts:47-66 | exactly the caller's wallets |
| WalletService.UpdateWallet | server/services/walletService.ts:68-101 | commits exactly when the store is available and the wallet exists; the stored and returned row is the old row re-based by `StartingBalanceDiff` |
| WalletService.IncomesForWallet | server/services/walletService.ts:150-167 | exactly the incomes of the wallet |
| WalletService.ExpensesForWallet | server/services/walletService.ts:169-186 | exactly the expenses of the wallet |
| WalletService.Deletes | server/services/walletService.ts:112-129 | one delete item per visited key, in visiting order |
| WalletService.ApplyDeletes | server/services/walletService.ts:109-144 | deleting a sequence of keys removes exactly the set of those keys, in any order |
| WalletService.PushDeletes | server/services/walletService.ts:112-129 | the `forEach`/`push` loop appends one delete per listed row, each row once |
| WalletService.CascadeItems | server/services/walletService.ts:109-137 | the transaction is the income deletes, then the expense deletes, then the wallet delete, last; `|incomes| + |expenses| + 1` items |
| WalletService.CascadeApplies | server/services/walletService.ts:139-144 | that transaction, in any visiting order, commits with effect `Cascaded` |
| WalletService.DeleteWallet | server/services/walletService.ts:103-148 | commits exactly when the store is available, with effect `Cascaded`; on failure all three tables are unchanged |
| WalletService.CreateWalletKeepsConsistent | server/services/walletService.ts:8-15 | a new wallet under an unused id keeps every balance equal to its sums |
| WalletService.UpdateWalletKeepsConsistent | server/services/walletService.ts:70-76 | re-basing by `StartingBalanceDiff` keeps every balance equal to its sums |
| WalletService.DeleteWalletKeepsConsistent | server/services/walletService.ts:103-148 | the cascade keeps every remaining balance equal to its sums and leaves no entry without its wallet |
| IncomeService.GetIncome | server/services/incomeService.ts:6-20 | the row under the key, if any; an empty key throws |
| IncomeService.CreateIncome | server/services/incomeService.ts:22-74 | commits exactly when the store is available and the wallet exists: the row is stored and the balance grows by the amount; otherwise nothing changes; consistency is kept for a fresh id |
| IncomeService.GetIncomes | server/services/incomeService.ts:76-95 | exactly the incomes of the wallet |
| IncomeService.UpdateIncome | server/services/incomeService.ts:97-164 | on commit the row is revised, the balance moves by `new - old`, and the result is `existing` with only name, type, amount and updatedAt replaced; otherwise nothing changes |
| IncomeService.DeleteIncome | server/services/incomeService.ts:166-209 | on commit the row is gone and the balance shrinks by `existing.amount`; otherwise nothing changes |
| ExpenseService.GetExpense | server/services/expenseService.ts:6-20 | the row under the key, if any; an empty key throws |
| ExpenseService.CreateExpense | server/services/expenseService.ts:22-74 | commits exactly when the store is available and the wallet exists: the row is stored and the balance shrinks by the amount; otherwise nothing changes |
| ExpenseService.GetExpenses | server/services/expenseService.ts:76-95 | exactly the expenses of the wallet |
| ExpenseService.UpdateExpense | server/services/expenseService.ts:97-164 | on commit the row is revised and the balance moves by `old - new`; otherwise nothing changes |
| ExpenseService.DeleteExpense | server/services/expenseService.ts:166-209 | on commit the row is gone and the balance grows by `existing.amount`; otherwise nothing changes |
| ExpenseService.WorkedExample | server/services/expenseService.ts:22-209 | a wallet at 100 goes to 70 after an expense of 30, to 50 after raising it to 50, and back to 100 after deleting it |
| Access.WalletAccess | server/lambdas/walletLambda.ts:73-102 | access is granted exactly for a present walletId of an existing wallet of the caller; otherwise the missing-id answer, 404, or 401, in that order |
| Access.EntryAccess | server/lambdas/incomeLambda.ts:51-87 | access is granted exactly when both ids are present, the row exists, lies in the path's wallet and belongs to the caller; otherwise 400, 400, 404, 401, 401, in that order |
| Access.EntryGrantImpliesWalletOwner | server/lambdas/incomeLambda.ts:174-186 | in sound tables a granted entry request comes from the owner of an existing wallet |
| Access.OwnedAfterCreate | server/services/incomeService.ts:22-74 | a create whose user owns the target wallet keeps every entry with its wallet's owner |
| Access.OwnedAfterUpdate | server/services/incomeService.ts:97-164 | an update changes no entry's wallet or user and no wallet's owner, so ownership is kept |
| Access.OwnedAfterDelete | server/services/incomeService.ts:166-209 | a delete only removes a row and moves a balance, so ownership is kept |
| Access.SoundAfterCreate | server/lambdas/incomeLambda.ts:13-31 | creating an entry with a fresh id in the caller's wallet keeps balances and ownership sound |
| Access.SoundAfterUpdate | server/lambdas/incomeLambda.ts:165-190 | updating the current row keeps balances and ownership sound |
| Access.SoundAfterDelete | server/lambdas/incomeLambda.ts:225-248 | deleting the current row keeps balances and ownership sound |
| Access.SoundAfterCreateWallet | server/lambdas/walletLambda.ts:15-30 | a new wallet under an unused id keeps the tables sound |
| Access.SoundAfterUpdateWallet | server/lambdas/walletLambda.ts:179-203 | re-basing a wallet keeps the tables sound |
| Access.SoundAfterDeleteWallet | server/lambdas/walletLambda.ts:247-286 | the cascade keeps the tables sound |
| WalletLambda.HandleCreate | server/lambdas/walletLambda.ts:8-41 | 200 with the new wallet exactly when the store is available; otherwise 500 and no change; soundness is kept for a fresh id |
| WalletLambda.HandleRead | server/lambdas/walletLambda.ts:67-114 | 200 with the wallet exactly for its owner; 400, 404, 401 otherwise |
| WalletLambda.HandleGetAll | server/lambdas/walletLambda.ts:116-144 | 200 with exactly the caller's wallets |
| WalletLambda.HandleUpdate | server/lambdas/walletLambda.ts:146-215 | 200 with the re-based wallet exactly when the caller owns it and the store is available; a denied request gets `WalletAccess`'s answer (400 missing id, 404, 401); a granted one the store fails gets 500 "Error updating wallet"; any other answer changes nothing; soundness is kept |
| WalletLambda.HandleDelete | server/lambdas/walletLambda.ts:217-298 | the cascade runs exactly when the caller owns the wallet and the store is available; a denied request gets `WalletAccess`'s answer (400, 404, 401); a granted one the store fails gets 500 "Error deleting wallet"; any other answer changes nothing; soundness is kept |
| IncomeLambda.CallCreateIncome | server/services/incomeService.ts:22-74 | createIncome succeeds only with a string walletId and the body object for incomeData, and then exactly when the wallet exists and the store is available; otherwise it throws and changes nothing |
| IncomeLambda.HandleCreateAsWritten | server/lambdas/incomeLambda.ts:7-43 | with the arguments as written, no request is ever answered 200 and the store never changes; a missing wallet gives 404, a foreign one 401, and every other request 500 |
| IncomeLambda.HandleCreate | server/lambdas/incomeLambda.ts:7-43 | corrected order: 200 with the new income exactly when the caller owns the existing wallet and the store is available; the balance grows by the amount; a missing walletId gives 500, a missing wallet 404, a foreign wallet 401, an unavailable store 500 "Error creating income"; any other answer changes nothing |
| IncomeLambda.HandleRead | server/lambdas/incomeLambda.ts:45-99 | 200 with the income exactly when `EntryAccess` grants it, otherwise its answer |
| IncomeLambda.HandleGetAll | server/lambdas/incomeLambda.ts:101-142 | 200 with exactly the wallet's incomes when the caller owns the wallet; otherwise `WalletAccess`'s answer: 400 for a missing walletId, 404, 401 |
| IncomeLambda.HandleUpdate | server/lambdas/incomeLambda.ts:144-202 | 200 exactly when access is granted, the wallet exists and the store is available; the income is revised and the balance moves by `new - old`; a denied request gets `EntryAccess`'s answer (400, 400, 404, 401, 401); a granted one that fails gets 500 "Error updating income"; any other answer changes nothing; soundness is kept |
| IncomeLambda.HandleDelete | server/lambdas/incomeLambda.ts:204-260 | 200 exactly when access is granted, the wallet exists and the store is available; the income is gone and the balance shrinks by its amount; a denied request gets `EntryAccess`'s answer; a granted one that fails gets 500 "Error deleting income"; any other answer changes nothing; soundness is kept |
| ExpenseLambda.HandleCreate | server/lambdas/expenseLambda.ts:6-42 | 200 with the new expense exactly when the caller owns the existing wallet and the store is available; the balance shrinks by the amount; a missing walletId gives 500, a missing wallet 404, a foreign wallet 401, an unavailable store 500 "Error creating expense"; any other answer changes nothing |
| ExpenseLambda.HandleRead | server/lambdas/expenseLambda.ts:44-98 | 200 with the expense exactly when `EntryAccess` grants it, otherwise its answer |
| ExpenseLambda.HandleGetAll | server/lambdas/expenseLambda.ts:100-141 | 200 with exactly the wallet's expenses when the caller owns the wallet; otherwise `WalletAccess`'s answer: 400 for a missing walletId, 404, 401 |
| ExpenseLambda.HandleUpdate | server/lambdas/expenseLambda.ts:143-201 | 200 exactly when access is granted, the wallet exists and the store is available; the balance moves by `old - new`; a denied request gets `EntryAccess`'s answer; a granted one that fails gets 500 "Error updating expense"; any other answer changes nothing; soundness is kept |
| ExpenseLambda.HandleDelete | server/lambdas/expenseLambda.ts:203-259 | as for incomes, with the balance growing by the amount; a denied request gets `EntryAccess`'s answer with the expense-id message for a missing walletId; a granted one that fails gets 500 "Error deleting expense" |

## Left out

- The user id is an input. `decodeToken` (server/utils/utils.ts) decodes the token without verifying its signature, and it throws outside the handlers' `try` when the header is missing. Neither is modelled.
- The JSON body is given already parsed and typed as `WalletData` or `EntryData`. Extra body fields are not modelled; they are spread into the stored row by the creates. An unparsable body is not modelled either. In the wallet create handler `JSON.parse` runs before the `try` (server/lambdas/walletLambda.ts:11), so the exception escapes the handler and the caller gets the platform's error, not a response from the handler; in the income, expense and wallet update handlers it runs inside the `try` and the answer is 500.
- Ids and timestamps are parameters. The random-number generator and the clock are not modelled.
- Amounts are integers. JavaScript's floating-point numbers are not modelled.
- Store reads never fail in the model. A failing read only turns into a 500 with no change. The `error` object in 500 bodies is not modelled.
- Scan pagination is not modelled: a scan returns at most 1 MB per page and the services read only the first page. Listings are maps, so their order is not modelled either.
- The store's own rejections are all folded into `available`. These are the per-transaction item limit, which a large `deleteWallet` can exceed, the rule that a transaction may not touch one item twice, throttling and empty-string keys on writes.
- Concurrency between handler invocations and the store's isolation level are not modelled.
- The unused `createWallet` in server/lambdas/walletLambda.ts:43-65 is not modelled; no handler calls it.
- IncomeLambda.CallCreateIncome: its `userId` parameter is a string, as at both call sites in server/lambdas/incomeLambda.ts. A non-string `userId`, which the store would keep as a map attribute, is not modelled.
- `Access.SoundAfterCreate`, `EntryService.CreateKeepsConsistent` and the create handlers' soundness clauses require an id not already in use. The source does not ensure this; `EntryService.CollidingIdBreaksBalance` shows what happens without it.

## Findings

| source | as written | input that shows it | evidently intended | confidence | as-written member | corrected member |
|---|---|---|---|---|---|---|
| server/lambdas/incomeLambda.ts:31 | `createIncome(incomeData, walletId, userId)` against the declaration `createIncome(walletId, userId, incomeData)` | the owner of an existing wallet `w` posts `{name, type, amount: 5}` to `/wallets/w/incomes`: the wallet key is the body object, the transaction is rejected, and the answer is 500 | `createIncome(walletId, userId, incomeData)`, as expenseLambda.ts:30 does | not executed | IncomeLambda.HandleCreateAsWritten | IncomeLambda.HandleCreate |
