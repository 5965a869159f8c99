# Ledger engine of ExpenseManagement, in Dafny

ExpenseManagement is a personal-finance web application: an Express/MongoDB
backend and a React frontend. This project models its **ledger engine** and
proves properties of that model. The ledger engine is the set of route
handlers that change wallet balances and write Expense, Income and
Transaction documents. Alongside it sit the pieces the engine relies on:

- the Mongoose schemas;
- the read-side query, pagination and aggregation logic;
- the CSV importer that feeds the bulk route;
- the password and form validators.

## How the model is organised

- **Store** (`store.dfy`) is the database. A pure `State` holds one map for
  each collection (`wallets`, `expenses`, `incomes`, `transactions`, `users`,
  `budgets`), keyed by id, plus the next id to hand out. Ids follow creation
  order, so "newest first" is "largest id first".
  - Class `Store.Database` keeps that same state in mutable fields.
  - Its methods are the Mongoose calls the handlers use:
    - `save()` succeeds exactly when the schema predicate holds. On failure
      it writes nothing, but writes made earlier in the handler are kept.
    - `findOneAndUpdate`, which runs no validators;
    - `findOneAndDelete`;
    - the `deleteMany` calls.
  - `Store.Consistent` is the store invariant that every handler preserves:
    schema-valid wallets, expenses and incomes, ids below the next id,
    unique emails, and ledger rows whose `expenseId` points to an id already
    handed out. Ledger rows are checked against their schema when
    inserted (`InsertTransaction`); the later amount update runs no
    validators, as in the code.
- **Schemas** (`*_model.dfy`) become validity predicates plus `New`
  constructors that apply the `trim` setters and the defaults. `Text.Trim`
  is JavaScript's `trim` over its white-space set.
- **Handlers** (`*_routes.dfy`) are methods on a `Database`. Each method runs
  the source's reads, checks and writes in the source's order.
  - Each method is proved equal to a pure outcome function
    (`CreateOutcome`, `DeleteOutcome`, …) of the old state, which gives the
    new state and the reply.
  - The properties of each route are lemmas about that outcome function.
  - The user routes also update a `UserRoutes.Session` object, which stands
    for `req.session`.
- **Read side**:
  - `Listing` covers `find(query).sort(...).limit(...).skip(...)` and
    `Math.ceil(total / limit)`.
  - `Aggregate` covers a `$group` by key.
  - `TransactionRoutes` covers the query document, the stats `forEach` fold
    and `netAmount`.
- **CSV importer** (`csv_import.dfy`) covers the header auto-detection
  (a method over the `forEach`), the row filter (a method over the
  `skippedCount++` filter), the row mapping, `mapCategory` and the
  `handleImport` guards. The result is a `Plan`: either nothing is posted,
  or an endpoint with the items to post.
- **Validators**:
  - `Passwords` holds the backend's `isStrong` and email regex.
  - `SystemRoutes` holds the frontend strength meter (a method over the
    `strength++` chain), `checkPasswordMatch` and the form checks.

Quantities and outside calls are modelled as follows:

- Amounts and balances are integers, in cents.
  - `isFloat({ min: 0.01 })` becomes `amount >= 1`.
  - A `parseFloat` that yields `NaN` becomes `None`.
- Dates are integer timestamps.
- The current time, and the CSV importer's end of today, are parameters.
- Library calls are parameters that the proofs treat as opaque functions:
  - `Library`: `isEmail`, `normalizeEmail`, `escape`, and bcrypt's `hash`
    and `compare`;
  - `Parsers`: `parseFloat` and `new Date`;
  - `Clock`: the current time.

### Behaviour reproduced as the code has it

- An expense update adjusts the balance only when `amount` changes. Moving
  an expense to another wallet leaves the debit on the old wallet.
- *Create income* credits the wallet with no guard, then builds a
  Transaction without `source`. The Transaction schema requires `source` for
  income, so that save always fails. The handler therefore answers 500 after
  it has already stored the Income and the credited wallet
  (`IncomeRoutes.IncomeRowRejected`, `IncomeRoutes.CreateCreditsThenFails`).
- *Delete income* looks the Transaction up by `income.transactionId`, a
  field the Income schema does not have. The filter is `{_id: undefined}`,
  so which row (if any) it removes is not determined by the code. The model
  takes that row as an input, `victim`, and no lemma depends on it.
- Bulk import has no balance guard, and a `NaN` amount passes the CSV filter.
  The backend's cast then fails, so the item is counted as failed and
  nothing is written for it.
- No wallet type's balance is bounded below, `credit_card` or not:
  - the Wallet schema has no bound;
  - bulk import, income delete and wallet update can all take any wallet
    below zero.

  (`WalletModel.BalanceUnconstrained`, `ExpenseRoutes.BulkOverdrawsWithoutGuard`.)
- A PUT body is assigned whole, and nothing strips `userId` from it. A body
  carrying `userId` hands the wallet or expense to that user. The expense's
  ledger row and wallet keep their old owner (`WalletRoutes.UpdateMovesOwner`,
  `ExpenseRoutes.UpdateMovesOwner`).
- The frontend's "Strong" label does not imply the backend's `isStrong`
  (`SystemRoutes.FourCriteriaShowStrong`,
  `SystemRoutes.AnySymbolCountsAsSpecial`).

## Model

| member | source | states |
|---|---|---|
| Text.TrimStartSpec | backend/models/Expense.js:9-13 | the leading part that trim drops is exactly the leading white space |
| Text.TrimEndSpec | backend/models/Expense.js:9-13 | the trailing part that trim drops is exactly the trailing white space |
| Text.TrimOccurs | backend/models/Expense.js:9-13 | the trimmed string is the original's substring that starts right after the leading white space |
| Text.TrimSpec | backend/models/Expense.js:9-13 | a trimmed string is empty or has no white space at either end |
| Text.TrimIdempotent | backend/models/Expense.js:9-13 | trimming twice gives the same result as trimming once, so a stored (trimmed) value is a fixpoint of the setter |
| Text.TrimUnchanged | backend/models/Expense.js:9-13 | a string with no white space at either end is left unchanged by trim |
| Text.TrimKeepsFirst | backend/models/Expense.js:9-13 | a string that starts with a non-space character still starts with it after trim |
| Text.ToLower | frontend/src/components/CSVImport.jsx:61 | lower-casing keeps the length and maps each character independently |
| TransactionModel.New | backend/models/Transaction.js:3-58 | a new row carries the given fields, the trimmed description and the default status `completed` |
| TransactionModel.NewValid | backend/models/Transaction.js:4-54 | a fresh row saves if and only if its type is one of the three, its trimmed description is non-empty and the category, source and wallets its type requires are present |
| TransactionModel.CategoryRule | backend/models/Transaction.js:23-26 | category is required exactly when the type is expense: removing it invalidates an expense row and is irrelevant for other types |
| TransactionModel.SourceRule | backend/models/Transaction.js:27-31 | source is required exactly when the type is income, and any source present is one of the six enumerated values |
| TransactionModel.WalletRule | backend/models/Transaction.js:32-41 | the from-wallet is required exactly for expense and transfer rows, the to-wallet exactly for income and transfer rows |
| TransactionModel.DefaultStatusValid | backend/models/Transaction.js:46-50 | the default status of a freshly built row is in the status enum |
| ExpenseModel.TrimAll | backend/models/Expense.js:37-40 | each tag is trimmed, with order and count kept |
| ExpenseModel.New | backend/models/Expense.js:3-50 | a new expense has the trimmed title, the given amount, category, wallet and date, and isRecurring false with no frequency |
| ExpenseModel.RecurrenceRule | backend/models/Expense.js:41-49 | a frequency is required exactly when isRecurring holds, and any frequency present is daily, weekly, monthly or yearly |
| ExpenseModel.NewValid | backend/models/Expense.js:9-23 | a fresh expense is valid if and only if its trimmed title is non-empty, the amount is at least 0 and the category is enumerated |
| WalletModel.New | backend/models/Wallet.js:3-55 | every absent field takes its schema default (balance 0, USD, `#3498db`, the card icon, null credit limit) and isActive starts true |
| WalletModel.BalanceUnconstrained | backend/models/Wallet.js:19-22 | validity never depends on the balance or on isActive, so no balance is refused by the schema |
| WalletModel.DefaultsApplied | backend/models/Wallet.js:19-43 | a wallet built from a name and type alone has balance 0, USD, active, no credit limit, and is valid if and only if the trimmed name is non-empty and the type is enumerated |
| IncomeModel.New | backend/models/Income.js:3-37 | a new income has the trimmed title and the given fields, and source `other` when none is given |
| IncomeModel.SourceDefaultValid | backend/models/Income.js:9-36 | with the default source, an income is valid if and only if its trimmed title is non-empty and the amount is at least 0 |
| IncomeModel.NewValid | backend/models/Income.js:4-43 | a fresh income is valid if and only if its trimmed title is non-empty, the amount is at least 0 and a supplied source is one of the six |
| Store.OwnedWallet | backend/routes/expenseRoutes.js:123-126 | the lookup finds the wallet if and only if it exists and belongs to the caller; not found and not owned are indistinguishable |
| Store.OwnedActiveWallet | backend/routes/walletRoutes.js:211-216 | additionally, the wallet must be active |
| Store.FirstLinked | backend/routes/expenseRoutes.js:214-217 | any row found is a stored row linked to the expense, inside the scanned id range |
| Store.FirstLinkedSpec | backend/routes/expenseRoutes.js:214-217 | the row found is the first linked row, and nothing is found only when no row in the range is linked |
| Store.LinkedTransactionComplete | backend/routes/expenseRoutes.js:253 | in a consistent store the linked-row lookup fails if and only if no transaction references the expense |
| Store.UserWithEmail | backend/routes/userRoutes.js:154-157 | finds a user holding exactly that email, and finds none only when no user in the range holds it |
| Store.WithoutOwner | backend/routes/userRoutes.js:258-265 | `deleteMany({ userId })` keeps exactly the documents owned by someone else, unchanged |
| Store.DeleteAccountDataKeeps | backend/routes/userRoutes.js:258-265 | whichever subset of the six deletions takes effect, the store invariant still holds |
| Store.Database.SaveWallet | backend/routes/walletRoutes.js:143 | a save succeeds if and only if the wallet schema holds, and only then replaces the stored wallet |
| Store.Database.InsertExpense | backend/routes/expenseRoutes.js:145 | an insert succeeds if and only if the expense schema holds, and then stores it under the next fresh id |
| Store.Database.InsertTransaction | backend/routes/expenseRoutes.js:156-167 | an insert succeeds if and only if the transaction schema holds, and then stores it under the next fresh id |
| Store.Database.SetLinkedAmount | backend/routes/expenseRoutes.js:214-217 | only the amount of the first linked row changes, with no validation, and nothing changes when there is no such row |
| Listing.Collect | backend/routes/transactionRoutes.js:39-45 | the collected documents are stored documents matching the query, in increasing id order |
| Listing.CollectComplete | backend/routes/transactionRoutes.js:39-45 | every matching document in the range is collected |
| Listing.SortedCollectSound | backend/routes/transactionRoutes.js:39-45 | after the sort, only matching stored documents remain, ordered by the sort key, descending |
| Listing.SortedCollectComplete | backend/routes/transactionRoutes.js:39-45 | after the sort, every matching stored document is still present |
| Listing.InsertSorted | backend/routes/transactionRoutes.js:43 | inserting into a descending sequence keeps it descending |
| Listing.SortDesc | backend/routes/transactionRoutes.js:43 | the sort is a permutation of its input |
| Listing.SortDescCorrect | backend/routes/transactionRoutes.js:43 | the sort orders by key descending (newest first) and is a permutation |
| Listing.PageSize | backend/routes/transactionRoutes.js:44-45 | after skipping `skip` of `total` rows a page shows min(limit, total − skip) rows, none past the end, all the rest for a limit of 0 |
| Listing.Window | backend/routes/transactionRoutes.js:44-45 | a negative skip is refused; otherwise the page has `PageSize` items and item k is input item (page − 1) · limit + k |
| Listing.WindowBounds | backend/routes/transactionRoutes.js:44-45 | for a page of at least 1 and a positive limit, a window exists with exactly min(limit, total − skip) items (0 past the end), and item k is input item skip + k |
| Listing.TotalPages | backend/routes/transactionRoutes.js:52 | the page count is ceil(total / limit), and is undefined for a limit of 0 |
| Listing.TotalPagesIsCeiling | backend/routes/transactionRoutes.js:52 | p pages of `limit` hold every document if and only if p is at least the page count |
| Listing.PageOfSound | backend/routes/transactionRoutes.js:39-52 | a page holds only matching stored documents, newest first; it has min(limit, total − skip) of them and holds every match ranked in its slice of the newest-first order; it reports the page count of all matches |
| Listing.WindowSorted | backend/routes/transactionRoutes.js:44-45 | a window of a sorted list is sorted |
| Listing.WindowIsSlice | backend/routes/transactionRoutes.js:44-45 | a window has `PageSize` items, each from its place in the input past the skip, and every input item from the skip up to the limit is in it |
| Listing.Newest | backend/routes/transactionRoutes.js:67-72 | `.limit(n)` keeps at most n items and never more than the input has, and keeps all of them when there are no more than n |
| Listing.NewestSorted | backend/routes/transactionRoutes.js:67-72 | the limited result is newest first and drawn from the input |
| Listing.NewestIsTop | backend/routes/transactionRoutes.js:67-72 | with more than n items, exactly n are kept, they are the first n of the newest-first order, and no item left out is newer than one kept |
| Aggregate.GroupAll | backend/routes/incomeRoutes.js:52-86 | a `$group` with a null key gives one group, or none when nothing matched; the wallet summary uses the same stage |
| Aggregate.GroupByDistinct | backend/routes/expenseRoutes.js:73-83 | `$group` yields each key in one group only |
| Aggregate.GroupByTotals | backend/routes/expenseRoutes.js:73-83 | the group totals sum to the sum of the grouped amounts |
| Aggregate.GroupByCounts | backend/routes/expenseRoutes.js:73-83 | the group counts sum to the number of grouped documents |
| Aggregate.GroupByKeySum | backend/routes/expenseRoutes.js:73-83 | the total reported for a key is the sum of the amounts of that key's documents |
| Aggregate.SortKeepsTotal | backend/routes/expenseRoutes.js:82 | sorting the groups by total does not change the sum of their totals |
| TransactionRoutes.KindFilterAll | backend/routes/transactionRoutes.js:24-26 | a type filter of `all`, empty or absent constrains nothing; any other value keeps exactly that type |
| TransactionRoutes.WalletFilterEitherSide | backend/routes/transactionRoutes.js:27-32 | a wallet filter matches a row if and only if the wallet is its from-wallet or its to-wallet; no filter matches everything |
| TransactionRoutes.DateBoundsInclusive | backend/routes/transactionRoutes.js:33-37 | both date bounds are inclusive and independent, each may be left out, and a date outside either bound is excluded |
| TransactionRoutes.ListSound | backend/routes/transactionRoutes.js:17-59 | the list shows only the caller's matching rows, newest first: min(limit, total − skip) of them, every match ranked in the page's slice, with the page count of all matches; the limit defaults to 20 |
| TransactionRoutes.ListSkips | backend/routes/transactionRoutes.js:39-45 | a page of at least 1 with a positive limit is never refused; it has exactly min(limit, total − skip) rows (0 past the end), and row k is row (page − 1) · limit + k of the sorted matches |
| TransactionRoutes.RecentSound | backend/routes/transactionRoutes.js:62-82 | recent rows are the caller's, newest first, at most `limit` (default 10), and all of them when the caller has no more than that |
| TransactionRoutes.RecentKeepsNewest | backend/routes/transactionRoutes.js:67-72 | when the caller has more than `limit` rows, exactly `limit` are returned and none is older than a row left out |
| TransactionRoutes.Fold | backend/routes/transactionRoutes.js:116-138 | the `forEach` over the groups computes the stats that the fold function specifies |
| TransactionRoutes.FoldStep | backend/routes/transactionRoutes.js:116-136 | each group overwrites only the total of its own type, and the count grows by the group's count |
| TransactionRoutes.LastTotalIsKeySum | backend/routes/transactionRoutes.js:116-136 | with distinct group ids, the total the switch leaves is that type's only group total |
| TransactionRoutes.KeySumAppend | backend/routes/transactionRoutes.js:116-136 | appending a group adds its total to its own key's sum and no other |
| TransactionRoutes.KeySumAbsent | backend/routes/transactionRoutes.js:116-136 | a key with no group sums to 0 |
| TransactionRoutes.StatsAreSums | backend/routes/transactionRoutes.js:85-150 | each type's total is the sum of that type's matched amounts; the count covers every matched row, including unrecognised types; net = income − expenses |
| TransactionRoutes.AbsentKindIsZero | backend/routes/transactionRoutes.js:116-136 | a type with no group keeps total 0 |
| TransactionRoutes.TransfersLeaveNet | backend/routes/transactionRoutes.js:138 | adding a transfer row never changes netAmount |
| WalletRoutes.SixDigitIsHexColor | backend/routes/walletRoutes.js:70-125 | every colour accepted by create is also accepted by update |
| WalletRoutes.DefaultIconFor | backend/routes/walletRoutes.js:254-265 | the icon table: card for credit and debit cards, bank for savings and checking, cash, chart for investment, purse otherwise |
| WalletRoutes.DefaultIconNonEmpty | backend/routes/walletRoutes.js:254-265 | the fallback icon is never empty, so `icon or default` always stores an icon from the table |
| WalletRoutes.Create | backend/routes/walletRoutes.js:69-117 | the handler's writes and reply equal the create outcome of the old store |
| WalletRoutes.CreateDefaults | backend/routes/walletRoutes.js:93-106 | a validated create with no optional fields succeeds: a new wallet with balance 0, USD, `#3498db`, the type's icon, null credit limit and active, with no other wallet touched |
| WalletRoutes.CreateCreditLimit | backend/routes/walletRoutes.js:101 | a zero credit limit is falsy and is stored as null; any other supplied limit is kept; an absent one is null |
| WalletRoutes.Assign | backend/routes/walletRoutes.js:135-142 | `Object.assign` overwrites exactly the supplied fields, the owner included, through the trim setters |
| WalletRoutes.UpdateMovesOwner | backend/routes/walletRoutes.js:135-143 | a body with another `userId` moves the wallet to that user: the new owner's lookup finds it and the old owner's finds nothing |
| WalletRoutes.AssignEmptyAndIdempotent | backend/routes/walletRoutes.js:142 | an empty body changes nothing, and applying the same body twice equals applying it once |
| WalletRoutes.Update | backend/routes/walletRoutes.js:120-154 | the handler's writes and reply equal the update outcome of the old store |
| WalletRoutes.UpdateEffect | backend/routes/walletRoutes.js:137-143 | an update rewrites only that wallet and may set any balance; a type outside the enum fails the save with nothing written |
| WalletRoutes.ReferencingExpensesPositive | backend/routes/walletRoutes.js:169 | the reference count is positive if and only if some expense references the wallet |
| WalletRoutes.Delete | backend/routes/walletRoutes.js:157-188 | the handler's writes and reply equal the delete outcome of the old store |
| WalletRoutes.DeleteSoftOrHard | backend/routes/walletRoutes.js:162-178 | a referenced wallet is only deactivated; any other wallet is removed; nothing else changes |
| WalletRoutes.DeleteUnowned | backend/routes/walletRoutes.js:162-165 | deleting a wallet that is not the caller's answers not found and changes nothing |
| WalletRoutes.Transfer | backend/routes/walletRoutes.js:191-251 | the handler's writes and reply equal the transfer outcome of the old store |
| WalletRoutes.Move | backend/routes/walletRoutes.js:224-240 | the debit, credit and ledger-row writes equal the move-funds outcome |
| WalletRoutes.Credit | backend/routes/walletRoutes.js:225-240 | the credit and ledger-row writes equal their staged outcome |
| WalletRoutes.Record | backend/routes/walletRoutes.js:231-240 | the ledger-row write equals its staged outcome |
| WalletRoutes.TransferSameWalletRefused | backend/routes/walletRoutes.js:206-208 | a transfer to the same wallet is refused before any lookup or write |
| WalletRoutes.TransferNeedsOwnedActive | backend/routes/walletRoutes.js:211-216 | if either wallet is not the caller's or not active, the answer is not found with no change |
| WalletRoutes.TransferInsufficient | backend/routes/walletRoutes.js:219-221 | a non-credit-card source with less than the amount is refused with no change |
| WalletRoutes.TransferRowValid | backend/routes/walletRoutes.js:231-240 | the transfer row passes its schema, and without a description it reads "Transfer from X to Y" |
| WalletRoutes.TransferConserves | backend/routes/walletRoutes.js:224-240 | a successful transfer debits the source and credits the destination by the amount, keeps their combined balance, and adds exactly one transfer row |
| WalletRoutes.MoveEffect | backend/routes/walletRoutes.js:224-240 | the write sequence on two distinct valid wallets conserves their sum and logs one row |
| WalletRoutes.TransferRowFields | backend/routes/walletRoutes.js:231-240 | the row records both wallets, the amount, the request time and status completed, and has no category or expense link |
| WalletRoutes.ActiveWalletsExact | backend/routes/walletRoutes.js:21 | the listing holds exactly the caller's active wallets, newest first |
| WalletRoutes.SummaryIsTotal | backend/routes/walletRoutes.js:34-66 | the summary, including its empty fallback, is the balance total and count of the active wallets |
| ExpenseRoutes.Record | backend/routes/expenseRoutes.js:145-167 | the expense save, wallet debit and ledger-row writes equal the record outcome |
| ExpenseRoutes.Create | backend/routes/expenseRoutes.js:102-181 | the handler's writes and reply equal the create outcome of the old store |
| ExpenseRoutes.RecordEffect | backend/routes/expenseRoutes.js:145-167 | with valid data, the record step adds the expense, debits the wallet by exactly the amount and adds one linked ledger row |
| ExpenseRoutes.ExpenseRowMirrors | backend/routes/expenseRoutes.js:156-167 | the ledger row has type expense, the same amount, wallet, date and category, the title as description, and the link to the new expense |
| ExpenseRoutes.CreateUnownedWallet | backend/routes/expenseRoutes.js:123-126 | creating on a wallet the caller does not own answers not found and changes nothing |
| ExpenseRoutes.CreateInsufficient | backend/routes/expenseRoutes.js:128-131 | a non-credit-card wallet with less than the amount refuses the expense before any write |
| ExpenseRoutes.CreateSucceeds | backend/routes/expenseRoutes.js:134-167 | a successful create stores the sanitised expense under the next id, debits the wallet by the amount and adds the mirroring row; nothing else changes |
| ExpenseRoutes.CreateOnCreditCardOverdraws | backend/routes/expenseRoutes.js:128-153 | a credit-card wallet is never refused for lack of funds, and its balance can go below zero |
| ExpenseRoutes.Assign | backend/routes/expenseRoutes.js:200-220 | `Object.assign` overwrites exactly the supplied fields, the owner included, through the trim setters |
| ExpenseRoutes.Adjust | backend/routes/expenseRoutes.js:206-218 | the amount branch's writes equal the adjustment it specifies, or nothing when it ends the request |
| ExpenseRoutes.Update | backend/routes/expenseRoutes.js:183-234 | the handler's writes and reply equal the update outcome of the old store |
| ExpenseRoutes.UpdateAmountDelta | backend/routes/expenseRoutes.js:206-221 | changing the amount from A to B moves the wallet balance by A − B and sets the linked row's amount to B; the wallet is looked up by id only |
| ExpenseRoutes.UpdateWithoutAmountChange | backend/routes/expenseRoutes.js:207-221 | without an amount change, even with a new walletId, no balance or ledger row moves and the supplied fields overwrite the expense |
| ExpenseRoutes.UpdateMovesOwner | backend/routes/expenseRoutes.js:200-221 | a body with another `userId` moves the expense to that user while its ledger row and wallet stay put; the old owner's delete then finds nothing and the new owner's does |
| ExpenseRoutes.UpdateFailingSaveKeepsAdjustment | backend/routes/expenseRoutes.js:206-221 | an update whose final save fails still keeps the balance change made before it |
| ExpenseRoutes.RemoveLinked | backend/routes/expenseRoutes.js:253-256 | removes the linked ledger row and the expense |
| ExpenseRoutes.Delete | backend/routes/expenseRoutes.js:236-266 | the handler's writes and reply equal the delete outcome of the old store |
| ExpenseRoutes.DeleteEffect | backend/routes/expenseRoutes.js:242-256 | delete credits the wallet by the expense amount and removes the expense and its linked row, and nothing else |
| ExpenseRoutes.CreateThenDeleteRestores | backend/routes/expenseRoutes.js:148-256 | a create followed by the delete of the new expense restores every collection; only the two used ids are consumed |
| ExpenseRoutes.RecordThenDeleteRestores | backend/routes/expenseRoutes.js:145-256 | recording an expense and then deleting it restores the store, apart from the used ids |
| ExpenseRoutes.DeleteRecorded | backend/routes/expenseRoutes.js:242-256 | deleting the expense just recorded undoes each of the create handler's writes |
| ExpenseRoutes.FreshRowIsLinked | backend/routes/expenseRoutes.js:253 | the delete's lookup by expenseId finds the row written for the newest expense |
| ExpenseRoutes.ImportAll | backend/routes/expenseRoutes.js:284-331 | every item is counted once, as success or failure, with one error per failure |
| ExpenseRoutes.ImportOne | backend/routes/expenseRoutes.js:285-330 | one loop iteration's writes and error equal the item step |
| ExpenseRoutes.BulkImport | backend/routes/expenseRoutes.js:268-344 | the handler's writes and reply equal the bulk outcome of the old store |
| ExpenseRoutes.ImportAllStep | backend/routes/expenseRoutes.js:284-331 | each item is processed on the state the earlier items left, and earlier successes stay committed |
| ExpenseRoutes.BulkRejectsEmpty | backend/routes/expenseRoutes.js:274-276 | a missing, non-array or empty list is refused before any write |
| ExpenseRoutes.BulkCounts | backend/routes/expenseRoutes.js:284-339 | imported plus failed equals the list length, and the reply carries one error per failure |
| ExpenseRoutes.ImportItemUnowned | backend/routes/expenseRoutes.js:287-292 | an item on a wallet the caller does not own records an error and writes nothing |
| ExpenseRoutes.ImportItemNaN | backend/routes/expenseRoutes.js:298-306 | a non-numeric amount fails the item with nothing written |
| ExpenseRoutes.ImportItemDefaults | backend/routes/expenseRoutes.js:295-310 | a bare item gets title "Imported Transaction", category other, description '', no tags and the current date, and its wallet is debited with no balance check |
| ExpenseRoutes.BulkOverdrawsWithoutGuard | backend/routes/expenseRoutes.js:309-310 | unlike create, bulk import can take a non-credit-card wallet below zero |
| ExpenseRoutes.ListSound | backend/routes/expenseRoutes.js:19-53 | the list shows only the caller's matching expenses, newest first: min(limit, total − skip) of them, every match ranked in the page's slice, with the page count of all matches |
| ExpenseRoutes.TotalSpentIsSum | backend/routes/expenseRoutes.js:87 | the reduce sums the group totals |
| ExpenseRoutes.TotalSpentIsSpending | backend/routes/expenseRoutes.js:56-100 | totalSpent is the sum of the caller's expense amounts in the date range, whatever the order of the groups |
| ExpenseRoutes.SummaryGroups | backend/routes/expenseRoutes.js:64-83 | each category appears once, with the total of that category's matched expenses, and the counts sum to the number of matched expenses |
| IncomeRoutes.Create | backend/routes/incomeRoutes.js:89-151 | the handler's writes and reply equal the create outcome of the old store |
| IncomeRoutes.Credit | backend/routes/incomeRoutes.js:124-137 | the credit and ledger-row writes equal their staged outcome |
| IncomeRoutes.IncomeRowRejected | backend/routes/incomeRoutes.js:128-137 | the income row (type income, same amount, title, to-wallet and date, no source, no expense link) always fails the Transaction schema |
| IncomeRoutes.CreateCreditsThenFails | backend/routes/incomeRoutes.js:112-137 | a valid create on the caller's wallet stores the income and credits the wallet with no guard, then answers 500 with no ledger row |
| IncomeRoutes.CreateUnownedWallet | backend/routes/incomeRoutes.js:106-109 | creating on a wallet that is not the caller's writes nothing |
| IncomeRoutes.Delete | backend/routes/incomeRoutes.js:154-183 | the handler's writes and reply equal the delete outcome of the old store |
| IncomeRoutes.DeleteRows | backend/routes/incomeRoutes.js:170-173 | removes the looked-up transaction, if any, and the income |
| IncomeRoutes.DeleteEffect | backend/routes/incomeRoutes.js:159-173 | delete debits the wallet by the amount with no sufficiency check and removes the income, whatever row the lookup hits |
| IncomeRoutes.DeleteUnowned | backend/routes/incomeRoutes.js:159-162 | deleting an income that is not the caller's answers not found and changes nothing |
| IncomeRoutes.CreateThenDeleteRestores | backend/routes/incomeRoutes.js:124-173 | deleting an income just created restores the wallets, incomes and expenses |
| IncomeRoutes.DeleteCredited | backend/routes/incomeRoutes.js:165-173 | deleting the income just credited debits the wallet back and drops the income |
| IncomeRoutes.ListSound | backend/routes/incomeRoutes.js:19-49 | the list shows only the caller's incomes in the range, newest first: min(limit, total − skip) of them, every match ranked in the page's slice, with the page count of all matches |
| IncomeRoutes.ListNegativeSkip | backend/routes/incomeRoutes.js:31-35 | a page below 1 gives a negative skip, which is refused |
| IncomeRoutes.SummaryIsTotal | backend/routes/incomeRoutes.js:52-86 | the summary, including its fallback of total 0 and count 0, is the amount total and count of the matching incomes |
| Passwords.EmailShapeMeans | backend/routes/userRoutes.js:141-144 | an accepted email has no white space and a single `@`, and is at least five characters long |
| Passwords.EmailShapeExamples | backend/routes/userRoutes.js:141-144 | `a@b.c` is accepted; addresses missing a dot, a local part, or containing a space or two `@` are refused |
| Passwords.StrongExamples | backend/routes/userRoutes.js:10-13 | a password with all four classes and eight characters is strong; one without a special character, or one that is too short, is not |
| UserRoutes.FindByEmail | backend/routes/userRoutes.js:154-157 | finds a user holding the email, and finds none if and only if no user holds it |
| UserRoutes.FindByEmailUnique | backend/routes/userRoutes.js:154-157 | with unique emails, the user found is the one holding the email |
| UserRoutes.Signup | backend/routes/userRoutes.js:123-176 | the handler's writes and answer equal the sign-up outcome of the old store |
| UserRoutes.SignupSucceedsIff | backend/routes/userRoutes.js:123-176 | sign-up succeeds if and only if every check passes and the email is unused; it then adds exactly that user; otherwise nothing changes; the session is untouched |
| UserRoutes.SignupDuplicateRefused | backend/routes/userRoutes.js:154-157 | a registered email never gets a second account, and is reported as taken once the earlier checks pass |
| UserRoutes.SignupWeakBeforeDuplicate | backend/routes/userRoutes.js:136-157 | a weak password is reported before the store is consulted, whatever the store holds |
| UserRoutes.Login | backend/routes/userRoutes.js:179-232 | the handler's session change and answer equal the login outcome, and the store is untouched |
| UserRoutes.LoginCredentials | backend/routes/userRoutes.js:191-209 | login changes no document, succeeds if and only if the user holding the email verifies the password, and gives the same answer for an unknown email as for a wrong password |
| UserRoutes.LoginSession | backend/routes/userRoutes.js:211-221 | after a login the session holds the user's id, name and email, with a seven-day life when asked to remember |
| UserRoutes.AuthStatus | backend/routes/userRoutes.js:26-35 | the probe reports an identity if and only if the session holds a user |
| UserRoutes.LoginThenStatus | backend/routes/userRoutes.js:26-35 | after a login the probe reports the logged-in user's stored name and email |
| UserRoutes.Logout | backend/routes/userRoutes.js:235-239 | logout destroys the session and answers success |
| UserRoutes.LogoutThenStatus | backend/routes/userRoutes.js:26-35 | after logout the probe answers 401 Not authenticated |
| UserRoutes.UpdateProfile | backend/routes/userRoutes.js:38-72 | the handler's writes, session and answer equal the profile outcome |
| UserRoutes.ProfileEffect | backend/routes/userRoutes.js:43-65 | an email held by another account is refused with nothing changed; a success rewrites only the user's name and email, in the store and in the session |
| UserRoutes.ChangePassword | backend/routes/userRoutes.js:75-119 | the handler's writes and answer equal the change-password outcome |
| UserRoutes.ChangePasswordEffect | backend/routes/userRoutes.js:89-112 | the current password is checked before strength; any refusal keeps the old hash; a success replaces only the user's hash with the hash of a strong password |
| UserRoutes.DeletedItemsRange | backend/routes/userRoutes.js:258-270 | the count lies between 1 and 6, equals 6 if and only if all five unguarded deletions succeed, and never depends on the Budget deletion |
| UserRoutes.DeleteAccount | backend/routes/userRoutes.js:242-292 | the handler's writes, session and reply equal the deletion outcome, and the reply's count is the number of fulfilled deletions |
| UserRoutes.DeleteAccountEffect | backend/routes/userRoutes.js:258-283 | with every deletion effective nothing of the user's is left; other users' wallets, expenses, incomes, ledger rows, budgets and accounts are always kept; the session is destroyed and the reply is a success |
| UserRoutes.UnauthenticatedRefused | backend/routes/userRoutes.js:16-22 | without a session user, every protected handler answers 401 and changes nothing |
| SystemRoutes.CountTrue | frontend/src/systemRoutes.js:9-14 | the number of criteria met is at most the number of criteria |
| SystemRoutes.CountFive | frontend/src/systemRoutes.js:9-14 | the score is the number of the five criteria that hold |
| SystemRoutes.Score | frontend/src/systemRoutes.js:9-14 | the `strength++` chain counts the criteria met, at most 5 |
| SystemRoutes.LabelOf | frontend/src/systemRoutes.js:16-25 | Strong if and only if the score is at least 4, Medium if and only if it is 2 or 3, Weak if and only if it is below 2 |
| SystemRoutes.StrongPasswordScoresFive | frontend/src/systemRoutes.js:1-14 | every password the backend accepts meets all five criteria and shows as Strong |
| SystemRoutes.FourCriteriaShowStrong | frontend/src/systemRoutes.js:1-25 | a password meeting four criteria shows Strong but is refused by isStrong |
| SystemRoutes.AnySymbolCountsAsSpecial | frontend/src/systemRoutes.js:1-14 | any non-alphanumeric character counts as special for the meter, but not for isStrong |
| SystemRoutes.CheckPasswordMatch | frontend/src/systemRoutes.js:38-49 | blank if and only if the confirmation is empty or absent; match if and only if it is non-empty and equal to the password; mismatch otherwise |
| SystemRoutes.SignupAcceptsIff | frontend/src/systemRoutes.js:66-91 | the form is accepted if and only if every field is filled, the email is valid, the passwords match and are strong, and the terms box is not explicitly unticked |
| SystemRoutes.SignupCheckOrder | frontend/src/systemRoutes.js:66-91 | each rejection is raised exactly when every earlier check passed and its own check fails, in the order fields, email, match, strength, terms |
| SystemRoutes.LoginAcceptsIff | frontend/src/systemRoutes.js:94-109 | the login form is accepted if and only if the password is non-empty and the trimmed email is valid |
| CsvImport.DetectColumns | frontend/src/components/CSVImport.jsx:57-75 | the `forEach` gives date, amount and note the last matching header, and title and category the first matching header unless already set |
| CsvImport.LastIndex | frontend/src/components/CSVImport.jsx:57-75 | the index of the last header satisfying the test, or −1 when none does |
| CsvImport.FirstIndex | frontend/src/components/CSVImport.jsx:57-75 | the index of the first header satisfying the test, or the header count when none does |
| CsvImport.LastMatchIsLast | frontend/src/components/CSVImport.jsx:62-73 | an overwriting assignment leaves the last matching header, or the previous mapping when none matches |
| CsvImport.FirstMatchIsFirst | frontend/src/components/CSVImport.jsx:63-71 | a guarded assignment leaves the first matching header |
| CsvImport.ContainsLength | frontend/src/components/CSVImport.jsx:61-73 | a substring hit needs at least as many characters as the keyword |
| CsvImport.MatchedHeaderNonEmpty | frontend/src/components/CSVImport.jsx:63-71 | headers chosen for title or category are never empty, so the `!newMapping.title` guard sees them |
| CsvImport.FirstMatchAppend | frontend/src/components/CSVImport.jsx:60-75 | one more header changes the first match only when nothing matched before |
| CsvImport.DetectedFields | frontend/src/components/CSVImport.jsx:60-75 | the fold over the headers gives last-match columns for date, amount and note, and first-match-unless-set for title and category |
| CsvImport.FirstMatchNonEmpty | frontend/src/components/CSVImport.jsx:63-71 | the first match is non-empty if and only if some header matched |
| CsvImport.CategoryIndex | frontend/src/components/CSVImport.jsx:199-203 | the first table entry with a keyword in the value, or the table length when there is none |
| CsvImport.FirstCategoryAtIndex | frontend/src/components/CSVImport.jsx:199-205 | the loop returns that entry's category, or other when there is none |
| CsvImport.CategoryNamesValid | frontend/src/components/CSVImport.jsx:189-197 | every table category is one of the Expense categories other than `other` |
| CsvImport.MapCategory | frontend/src/components/CSVImport.jsx:185-206 | the result is always in the Expense category enum |
| CsvImport.MapCategorySpec | frontend/src/components/CSVImport.jsx:185-206 | empty maps to other; otherwise the result is the first category, in declared order, with a keyword in the lower-cased value, and other if and only if there is none |
| CsvImport.GroceryStoreKeywords | frontend/src/components/CSVImport.jsx:190-191 | "grocery store" holds both a food keyword and a shopping keyword |
| CsvImport.FoodKeywordWins | frontend/src/components/CSVImport.jsx:199-203 | declared order decides: a value with a food keyword maps to food, whatever other keywords it holds |
| CsvImport.FilterRows | frontend/src/components/CSVImport.jsx:110-126 | the filter keeps the rows it specifies, in order, and `skippedCount` is the number of future-dated rows with a passing amount |
| CsvImport.KeptExact | frontend/src/components/CSVImport.jsx:112-126 | a row survives if and only if its amount passes (NaN included) and its date is not after the end of today |
| CsvImport.FilterPartition | frontend/src/components/CSVImport.jsx:110-126 | every row is either kept, dropped for its amount (not counted) or skipped for its date (counted) |
| CsvImport.ToItem | frontend/src/components/CSVImport.jsx:127-134 | each item carries the chosen wallet, a non-empty title, an enumerated category and a non-negative amount, or NaN exactly when parsing fails |
| CsvImport.Items | frontend/src/components/CSVImport.jsx:127-134 | one item per kept row |
| CsvImport.KeptItem | frontend/src/components/CSVImport.jsx:127-134 | a kept row's amount is already positive, so `Math.abs` never changes it; blank cells get the defaults "Imported Transaction", today and other |
| CsvImport.HandleImport | frontend/src/components/CSVImport.jsx:86-146 | the handler's plan equals the import plan of its inputs |
| CsvImport.ImportPlan | frontend/src/components/CSVImport.jsx:86-146 | an import is posted if and only if there is a file, a wallet, a date and an amount column, and some row survives; each item then carries the chosen wallet and items plus skipped rows never exceed the rows |

## Left out

- Express, helmet, rate limiting, session wiring and the MongoDB connection (`app.js`): library configuration with no ledger logic.
- The React pages and layout, the chart, `scripts.js` (theme toggling), `api.js`, `AuthContext.jsx` and `test-login.js`: markup, DOM and network plumbing.
- The strength meter in `frontend/src/pages/signup.jsx` duplicates `frontend/src/systemRoutes.js:5-29`. It is modelled once, as `SystemRoutes.Score`.
- `backend/models/Budget.js` and `backend/models/User.js` are treated as plain records. User email uniqueness is a store invariant. The User schema's lowercase setter is taken to be applied already by `normalizeEmail`.
- Library calls are opaque parameters:
  - bcrypt `hash` and `compare`;
  - express-validator's `isEmail`, `normalizeEmail` and `escape`;
  - `parseFloat` and `new Date`;
  - the clock.

  No property of those libraries is assumed.
- Floating point is not modelled:
  - amounts are integers in cents, so fractional cents and rounding are absent;
  - `NaN` from `parseFloat` is an explicit `None`;
  - `toFixed` formatting is absent.
- `String.length` counts UTF-16 code units, but the model counts characters. `toLowerCase` is modelled for ASCII letters only.
- Amounts are assumed to arrive as JSON numbers. The validators check values but do not convert them, so a string amount would meet JavaScript's `+` concatenation (`backend/routes/incomeRoutes.js:125`, `backend/routes/walletRoutes.js:225`). That coercion is not modelled.
- The string-versus-ObjectId `$match` in the wallet summary (`backend/routes/walletRoutes.js:36-39`) is a Mongo casting detail. The model matches by the caller's id.
- Negative or non-numeric `limit` and `page` values are not modelled: limits are natural numbers and a page is any integer. `.populate` is left out, since it only joins display fields.
- Concurrency is left out: one request runs at a time, so lost updates between requests on a balance are not represented. The `Promise.allSettled` fan-out of account deletion is a `Deletions` parameter that says which calls took effect.
- Session cookie internals (signing, storage, expiry) are left out. The session is just the stored user and its `maxAge`.
- The 500 "Error deleting account" path (`backend/routes/userRoutes.js:285-291`) is left out. It is reachable only if `allSettled` or `session.destroy` throws outside the deletions.
- CSV importer:
  - the file-type check, the Papa Parse preview and the handling of the response after the POST are UI and network steps;
  - the `/api/income/bulk` endpoint it may choose has no route in this repository.
- IncomeRoutes.Delete: which Transaction `findOneAndDelete({ _id: undefined })` removes is a parameter (`victim`). The code does not determine it, so no lemma depends on it.
- Invalid ISO date strings in request bodies are not modelled: dates arrive as integers.
- PUT bodies carry only the schema's own fields and `userId`. Other keys (`_id`, timestamps) and a `userId` that fails the ObjectId cast are not modelled.
- Every route assumes an authenticated caller. The `isAuthenticated` middleware is modelled for the profile, password and account routes (`UserRoutes.UnauthenticatedRefused`). The ledger routes take the caller's id as a parameter.
