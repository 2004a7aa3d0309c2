# Personal finance ledger: wallets, transactions and summary reports

This project models the server core of a personal finance tracker. A user owns
several wallets, which are cash or bank accounts with an initial balance and a
materialized current balance. Income and expense transactions are recorded
against a wallet. A summary report gives, for one wallet or all of a user's
wallets over an optional window `[from, to]`:
- the opening balance;
- the income and the expense inside the window;
- the closing balance.

The report is recomputed from the transaction log rather than read from the
wallets' balances.

Modules:

- `Common`: `Option`, `Result`, `Outcome` and the error taxonomy (`ValidationError`,
  `NotFound`, `InsufficientFunds`, `Conflict`).
- `Seqs`: the document store's queries on a collection held as a sequence:
  - `Filter` is `find`;
  - `FirstIndex` is `findOne`;
  - `SortBy` is `sort`, an insertion sort proved sorted and a permutation;
  - `Take` is `limit` with a positive argument. A limit of 0, which the store
    reads as no limit, is handled by `Ledger.NewestFirst`, which then keeps
    everything.
- `Records`: the wallet and transaction documents, the type enum, and the
  conditional sums of amounts that every balance figure is built from. These
  sums are the meaning of `$sum: {$cond: …}`.
- `Balance`: how creating and deleting a transaction moves its wallet's
  balance. It also defines when the materialized balance agrees with the
  balance replayed from the log: `initialBalance + income − expense` over the
  wallet's transactions. The module proves which operations keep that
  agreement, and that the delete-time floor at 0 can break it.
- `Report`: the summary pipeline as written (the wallet lookup, the `$match`
  stage, the null-keyed `$group` stage with its four conditional sums, and the
  opening-balance adjustment). It restates the report by region:
  - after `to`: counted nowhere;
  - strictly before `from`: counted in the opening balance;
  - otherwise: counted in the window.

  It proves what each transaction contributes, including the tie rule that a
  transaction exactly at `from` counts in the window.
- `Ledger`: the store as a class. It holds the wallet and transaction
  collections as sequences plus id counters. Each controller operation is a
  method that:
  - keeps the store's invariant `Valid()`;
  - states its whole new state and its result;
  - keeps the balance agreement `Consistent()`, unconditionally except for a
    delete whose reversal is floored.

Timestamps are integers. The clock is the `now` parameter. Document ids are
naturals drawn from counters in the store, and the authenticated user is a
parameter.

Three behaviours of the code worth knowing:

- **Duplicate account number.** `createWallet` has no handler for a duplicate
  `(owner, account number)`. The store's unique index
  (`server/src/models/Wallet.ts:26`) rejects the write. The model returns
  `Conflict` without changing the store, and `updateWallet` does the same when
  the new account number is taken by another of the owner's wallets.
- **Unknown type string.** `createTransaction` runs the funds check on the
  literal string `"expense"` before the schema's type enum is applied. An
  unknown type string is therefore refused only after the funds check, when
  `Transaction.create` throws the schema's enum error. No handler catches it:
  the controller has no try/catch and the server (`server/src/index.ts`)
  installs no error middleware. The model returns `ValidationError` without
  changing the store.
- **Opening adjustment.** `getSummaryReport` adjusts the opening balance only
  when the `$group` stage returns a document. When no transaction reaches the
  stage, the opening balance is the baseline even with a `from`. None of the
  adjustment would have been non-zero in that case, and `SummaryByRegion`
  shows the result is the same.

## Model

| member | source | states |
|---|---|---|
| Records.ParseType | server/src/models/Transaction.ts:21-25 | the type enum accepts exactly "income" and "expense", and the parsed type's stored name is the input string |
| Records.ParseTypeName | server/src/models/Transaction.ts:21-25 | parsing a stored type name gives that type back (round trip) |
| Seqs.Filter | server/src/controllers/transactionController.ts:14-28 | `find`: the result holds only input elements that satisfy the filter, holds every input element that does, and is a sub-multiset of the input |
| Seqs.SmallestFirst | server/src/controllers/transactionController.ts:28-30 | sort then limit n returns min(n, size) elements of the input, in key order, and no element left out has a smaller key than one returned |
| Seqs.SortBy | server/src/controllers/walletController.ts:14-16 | the sort's result is ordered by the key and is a permutation of its input |
| Seqs.FirstIndex | server/src/controllers/walletController.ts:60 | `findOne`: the index found matches and no earlier element matches; None exactly when nothing matches |
| Balance.Apply | server/src/controllers/transactionController.ts:71 | recording a transaction raises the balance for an income and lowers it for an expense, and taking it back unfloored restores the balance exactly (see also ApplyKeepsFloor and ReverseUndoesApply) |
| Balance.Reverse | server/src/controllers/transactionController.ts:99-100 | the reversal on delete is never negative, is at least the unfloored reversal, equals it whenever that is non-negative, and is exactly 0 when it is negative |
| Balance.ApplyKeepsFloor | server/src/controllers/transactionController.ts:57-71 | a transaction that passed the funds check leaves the balance non-negative; spending the whole balance leaves exactly 0 |
| Balance.ReverseUndoesApply | server/src/controllers/transactionController.ts:71-100 | deleting a transaction right after recording it restores the wallet's balance exactly |
| Balance.CreateKeepsBalanced | server/src/controllers/transactionController.ts:61-72 | appending a transaction and applying it to its own wallet keeps every wallet's balance equal to its replayed balance |
| Balance.DeleteKeepsBalanced | server/src/controllers/transactionController.ts:85-102 | removing a transaction and reversing it on its wallet keeps every wallet balanced when the reversal is not floored |
| Balance.DeleteOrphanKeepsBalanced | server/src/controllers/transactionController.ts:94-102 | removing a transaction whose wallet is gone keeps every wallet balanced |
| Balance.ClampBreaksBalance | server/src/controllers/transactionController.ts:99-100 | a floored reversal always breaks the agreement: the wallet's new balance is exactly 0 while its replayed balance is the negative unfloored value |
| Balance.ClampExample | server/src/controllers/transactionController.ts:99-100 | the figures of the floor scenario, on values: a wallet opened at 0, +500 then −500 brings it back to 0 and is balanced; reversing the +500 floors to 0 while the remaining log replays to −500 |
| Ledger.FloorThroughRequests | server/src/controllers/transactionController.ts:35-105 | the same scenario through the store's own requests (create wallet at 0, record +500 and −500, delete the income): the store stays valid but is no longer consistent, showing 0 against a replayed −500 |
| Balance.NewWalletBalanced | server/src/controllers/walletController.ts:38-45 | a new wallet whose balance is its initial balance, and which no transaction references, starts balanced and keeps the others balanced |
| Balance.UpdateKeepsBalanced | server/src/controllers/walletController.ts:65-69 | changing a wallet's name, account number or currency keeps every wallet balanced |
| Balance.CascadeKeepsBalanced | server/src/controllers/walletController.ts:81-90 | deleting a wallet together with its transactions keeps every remaining wallet balanced |
| Balance.CascadeMembers | server/src/controllers/walletController.ts:90 | the cascade removes exactly the transactions of that wallet and owner and keeps every other one |
| Report.BaselineNonNegative | server/src/controllers/reportController.ts:53-56 | the opening baseline of wallets within the schema's bound is non-negative |
| Report.BaselineConcat | server/src/controllers/reportController.ts:53-56 | the baseline of two groups of wallets is the sum of their baselines |
| Report.MatchedMembers | server/src/controllers/reportController.ts:58-68 | the `$match` stage passes on exactly the logged transactions of the owner (and wallet) not after `to`, as a sub-multiset of the log |
| Report.GroupStageParts | server/src/controllers/reportController.ts:84-127 | the group document exists exactly when some transaction reached the stage; without `from` both before-sums are 0; without `to` every amount of a type is counted once, in the window or before it |
| Report.Summary | server/src/controllers/reportController.ts:32-146 | the report fails, with NotFound, exactly when none of the wallets is selected |
| Report.SummaryByRegion | server/src/controllers/reportController.ts:53-137 | a successful report's figures are, by region: baseline plus net before `from`, income and expense in the window, and the closing balance completing them; `walletIds` lists the selected wallets |
| Report.OpeningWithoutFrom | server/src/controllers/reportController.ts:84-87 | without `from` the opening balance is exactly the sum of the selected wallets' initial balances |
| Report.ClosingIsBalanceAsOf | server/src/controllers/reportController.ts:66-137 | the closing balance is the baseline plus the net of every selected transaction not after `to`, whatever `from` is |
| Report.SummaryEmptyLog | server/src/controllers/reportController.ts:122-135 | with no transactions no group document exists and the report is the baseline with zero totals |
| Report.ContributionOutside | server/src/controllers/reportController.ts:58-68 | a transaction of another owner or wallet, or after `to`, changes no figure of the report |
| Report.ContributionBeforeFrom | server/src/controllers/reportController.ts:84-91 | a selected transaction strictly before `from` moves only the opening and closing balances, by its signed amount |
| Report.ContributionInWindow | server/src/controllers/reportController.ts:70-82 | a selected transaction at or after `from` and not after `to` adds only to the total of its own type; one exactly at `from` is in the window |
| Report.ClosingMatchesWallet | server/src/controllers/reportController.ts:44-137 | for one wallet and no window, the report's closing balance is the wallet's replayed balance, and so its stored balance when that is balanced |
| Report.SummaryTwoMovements | server/src/controllers/reportController.ts:93-137 | one income then one expense, over the window from the first to the second: opening is the initial balance, both totals show, and closing is the net |
| Report.SummaryTwoMovementsLaterFrom | server/src/controllers/reportController.ts:84-137 | the same log over the window at the expense alone: the income moves into the opening balance and the closing balance is unchanged |
| Report.SummaryExample | server/src/controllers/reportController.ts:93-137 | initial 1000, +500 at 1, −300 at 2: the window [1, 2] gives 1000, 500, 300, 1200, and the window [2, 2] gives 1500, 0, 300, 1200 |
| Ledger.FindWallet | server/src/controllers/walletController.ts:60 | the lookup finds the first wallet with that id and owner, or None exactly when there is none |
| Ledger.FindTx | server/src/controllers/transactionController.ts:85-88 | the lookup finds the first transaction with that id and owner, or None exactly when there is none |
| Ledger.MissingField | server/src/controllers/transactionController.ts:43 | a request passes the field check exactly when it gives a wallet, a non-zero amount, a type and a category; an amount of 0 counts as missing |
| Ledger.Renamed | server/src/controllers/walletController.ts:65-67 | each given field replaces the old one, each empty field keeps it, and id, owner, both balances and creation time never change |
| Ledger.NewestFirstProps | server/src/controllers/reportController.ts:25-27 | newest-first with a limit: non-increasing times, min(limit, size) elements (all when the limit is 0), a sub-multiset of the input, and nothing left out newer than anything returned |
| Ledger.FindWalletAfterBalance | server/src/controllers/transactionController.ts:94-97 | changing a wallet's balance does not change which wallet a lookup finds |
| Ledger.Ledger.CreateWallet | server/src/controllers/walletController.ts:20-48 | requires name and account number; a negative initial balance is refused; a duplicate account number gives Conflict; success appends a wallet with balance equal to the initial balance and currency defaulting to VND; keeps the invariant and the balance agreement |
| Ledger.Ledger.UpdateWallet | server/src/controllers/walletController.ts:50-71 | NotFound for an unknown wallet; Conflict for an account number held by another wallet of the owner; otherwise only that wallet changes, as `Renamed`; no balance ever changes |
| Ledger.Ledger.DeleteWallet | server/src/controllers/walletController.ts:73-93 | NotFound for an unknown wallet; otherwise removes it and exactly its transactions, keeping every other transaction and the balance agreement |
| Ledger.Ledger.ListWallets | server/src/controllers/walletController.ts:6-18 | returns exactly the caller's wallets (as a multiset), oldest first |
| Ledger.Ledger.CreateTransaction | server/src/controllers/transactionController.ts:35-75 | in order: missing field, unknown wallet, non-positive amount, insufficient funds, unknown type; succeeds exactly when all checks pass, appends the transaction, moves only its wallet's balance by its signed amount, and keeps the invariant and the balance agreement |
| Ledger.Ledger.DeleteTransaction | server/src/controllers/transactionController.ts:77-105 | NotFound for an unknown transaction; otherwise removes it, so that no transaction with that id remains, and floors the reversal on its wallet if that still exists; keeps the invariant always and the balance agreement whenever the reversal is not floored |
| Ledger.Ledger.CreateThenDelete | server/src/controllers/transactionController.ts:61-101 | recording a transaction and deleting it leaves both collections exactly as before; the wallet counter is unchanged and the transaction counter is one higher exactly on success |
| Ledger.Ledger.ListTransactions | server/src/controllers/transactionController.ts:7-33 | the caller's transactions matching wallet, type and inclusive window, newest first, min(200, matches) of them, all of them when at most 200 match, and none left out newer than one returned |
| Ledger.Ledger.TransactionHistory | server/src/controllers/reportController.ts:9-30 | the caller's transactions, of one wallet if given, newest first, at most the limit (50 by default, all for 0), none left out newer than one returned |

## Left out

- Authentication: the `!req.user` guard of every handler and the identity middleware. The caller is a parameter, and `Unauthenticated` is not modelled.
- Floating-point amounts and `Number(...)` conversions: amounts are integers. `NaN` amounts, non-numeric limits and malformed dates, which the store rejects or misreads, are not modelled.
- Malformed document ids, which the store rejects with a cast error: ids are naturals.
- Concurrency: each request is one atomic step. The race between two concurrent expenses that both pass the funds check, and a crash between writing the transaction and saving the wallet, are not modelled.
- The store's `createdAt`/`updatedAt` timestamps of transactions and `updatedAt` of wallets: only a wallet's `createdAt` is kept, as the listing sorts by it.
- The order among documents with equal sort keys, which the store leaves unspecified: the model's sort is one fixed stable order, and every contract about a sorted listing states only what holds for any order of ties.
- The order of a `find` without a sort, which the store also leaves unspecified: the model returns documents in insertion order. In particular the report's wallet list (`server/src/controllers/reportController.ts:48`) is fixed to that order, so the `walletIds` of `Report.SummaryByRegion` is one of the orders the store may return.
- HTTP status codes and response messages: errors are the taxonomy's values.
- A negative history limit (the store treats it like its absolute value): the limit is a natural.
- Ledger.Ledger.DeleteTransaction: keeps the balance agreement only when the reversal is not floored, because the floor at 0 really breaks it (Balance.ClampBreaksBalance, Balance.ClampExample).
- The authentication controller, the identity service, the routes and the client are not part of this model.
