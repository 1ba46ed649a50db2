# mocoin domain: coin sagas and the task queue

This project is a Dafny model of the core of the mocoin domain library. The
library moves "coins" between accounts as a saga, in these steps:

- A transaction is started.
- For each account touched, an authorization hold is placed on an external
  ledger service (Pecorino). Each hold is recorded as an authorize action.
- The transaction is confirmed. This attaches the authorizations that had
  ended and plans a money-transfer action.
- The confirmed transaction, or a canceled or expired one, is exported as
  queued tasks.
- A worker claims each task and runs it. Running a money-transfer task
  settles the chosen hold on the coin ledger.

The document stores (tasks, actions, transactions, ownership records and
orders) are classes over sequences of records. Their methods change the
sequence as the MongoDB updates do, one update per atomic step.

The external services never appear as code:

- the ledger services;
- the developers' mail;
- the point-deposit service;
- task handlers.

Each such call is appended to a log object, such as `Pecorino.LedgerLog` or
`TaskService.Notifier`. Its reply (success, the hold opened, or the error
thrown) is a parameter of the method that makes the call. A proof therefore
covers every possible reply.

Times are integers in milliseconds, so `moment().add(1, 'hour')` is
`+ 3600000`. Record ids are natural numbers issued in increasing order by
each store.

Modules, one per source file, plus shared ones:

| module | what it models |
|---|---|
| `Wrappers`, `Seqs` | `Option`; filter, stable sort, the MongoDB cursor `limit`, first match |
| `Factory` | the record types of the domain, its error kinds, `Result`/`Outcome` |
| `ErrorHandler` | classification of ledger client errors |
| `Pecorino`, `CoinAccountRepo`, `BankAccountPaymentRepo` | ledger requests and the two gateways that build and route them |
| `TaskRepo`, `TaskService` | the task store and the task runner |
| `ActionRepo` | the action store |
| `TransactionRepo`, `TransactionUtil` | the transaction store and the bearer token |
| `TransactionShared` | the saga steps the three coordinators share |
| `BuyCoinService`, `WithdrawCoinService`, `TransferCoinService` | the three coordinators |
| `CoinAccountService` | the settlement run by a money-transfer task |
| `OwnershipInfoRepo`, `OrderRepo` | the ownership-info and order stores |

Token failures are not classified. `confirm` of buy and withdraw passes on
the token library's own error (`TokenExpiredError` or `JsonWebTokenError`),
and the model returns it as `TokenError`: `TransactionUtil.Verify` yields it
and the coordinators pass it on.

## Model

| member | source | states |
|---|---|---|
| ErrorHandler.HandlePecorinoError | src/errorHandler.ts:11-40 | Total. A non-ledger error is returned unchanged. A ledger request error maps 400/401/403/404/429 to Argument("PecorinoArgument")/Unauthorized/Forbidden/NotFound/RateLimitExceeded. Any other code maps to ServiceUnavailable. The message is always "name:message". |
| ErrorHandler.HandlePecorinoErrorIdempotent | src/errorHandler.ts:11-40 | Classifying an already classified error changes nothing. |
| Pecorino.ServiceFor | src/repo/account/coin.ts:186-203 | Each ledger transaction type has a service, and the service's own type is inverse to it. An unknown type has no service. |
| Pecorino.ServiceForHoldTypeOf | src/repo/account/coin.ts:186-203 | Routing a service's own hold type leads back to that service. |
| CoinAccountRepo.PecorinoRepository.AuthorizeAmount | src/repo/account/coin.ts:133-154 | One withdraw start on the coin endpoint. It expires one hour after the transaction and carries the transaction's amount, notes, source account number, agent and recipient. |
| CoinAccountRepo.PecorinoRepository.StartDeposit | src/repo/account/coin.ts:159-181 | One deposit start. It expires one hour after the transaction and carries the destination account number, amount, notes, agent and recipient. |
| CoinAccountRepo.PecorinoRepository.SettleTransaction | src/repo/account/coin.ts:186-203 | A confirm of exactly the hold's id, on the service that keeps the hold's type. No call for an unknown type. |
| BankAccountPaymentRepo.PecorinoRepository.AuthorizeAmount | src/repo/paymentMethod/bankAccount.ts:54-75 | One withdraw start on the bank endpoint, expiring one hour after the transaction, with amount, notes and source account number. |
| BankAccountPaymentRepo.PecorinoRepository.StartDeposit | src/repo/paymentMethod/bankAccount.ts:80-102 | One deposit start, expiring one hour after the transaction, with the destination account number. |
| BankAccountPaymentRepo.PecorinoRepository.SettleTransaction | src/repo/paymentMethod/bankAccount.ts:107-124 | A confirm of the hold on the service matching its type. No call for an unknown type. |
| BankAccountPaymentRepo.PecorinoRepository.VoidTransaction | src/repo/paymentMethod/bankAccount.ts:131-148 | A cancel, never a confirm, of the hold on the service matching its type. No call for an unknown type. |
| BankAccountPaymentRepo.PecorinoRepository.SettleAndVoidAgree | src/repo/paymentMethod/bankAccount.ts:107-148 | Settling and voiding a hold address the same service, and both make a call or neither does. |
| TaskRepo.SelectNext | src/repo/task.ts:14-51 | Finds no task exactly when none is Ready, of the name and due strictly before now. Otherwise it finds one that is: fewest tries first, then earliest due; among equals the earliest stored, a tie-break of the model's own. |
| TaskRepo.Claimed | src/repo/task.ts:43-48 | Running, last tried now, one try fewer remaining and one more tried. The budget (remaining plus tried) and everything else are kept. |
| TaskRepo.Retried | src/repo/task.ts:60-76 | Exactly the Running tasks last tried before the threshold with tries left become Ready. Only the status changes, and every other task is kept as it was. |
| TaskRepo.WithResult | src/repo/task.ts:103-115 | The result goes at the end of the history and the status is set. Nothing else changes, and the budget is kept. |
| TaskRepo.TotalBudgetPointwise | src/repo/task.ts:43-115 | Stores with the same budgets task by task have the same total budget. This is the conserved counter. |
| TaskRepo.TaskRepository.Save | src/repo/task.ts:29-33 | Appends the task under a fresh id. The total budget grows by the new task's budget. |
| TaskRepo.TaskRepository.ExecuteOneByName | src/repo/task.ts:35-58 | Fails NotFound("executable task"), changing nothing, exactly when no task is executable. Otherwise only the next task to run is replaced by its claimed form, and the total budget is kept. |
| TaskRepo.TaskRepository.Retry | src/repo/task.ts:60-76 | The store becomes `Retried` of the old store at now minus the interval. The total budget is kept. |
| TaskRepo.TaskRepository.AbortOne | src/repo/task.ts:78-101 | Fails NotFound("abortable task"), changing nothing, exactly when no Running, exhausted and stale task exists. Otherwise only the first such task becomes Aborted. |
| TaskRepo.TaskRepository.PushExecutionResultById | src/repo/task.ts:103-115 | The task with the id gets the result appended and the status set. Every other task is unchanged. An unknown id changes nothing. |
| TaskService.ClaimedTaskOutcome | src/service/task.ts:73-103 | A claimed task ends Executed exactly when its handler exists and succeeds. Otherwise it stays Running, with the error stack, or the undefined-handler stack. |
| TaskService.Execute | src/service/task.ts:73-103 | Pushes exactly one result dated now: Executed with no error, or the task's own status with the stack. It never fails. |
| TaskService.ExecuteByName | src/service/task.ts:49-65 | When no task can be claimed, the store is unchanged. Otherwise only the next task to run changes: it is claimed and then carries the recorded outcome. |
| TaskService.RetryTasks | src/service/task.ts:111-115 | The store after the retry sweep. |
| TaskService.LastResultError | src/service/task.ts:129-133 | The error of the last execution result, or empty when there is none. |
| TaskService.LastResultAfterExecution | src/service/task.ts:129-133 | After an execution, the report's last result is the error that execution recorded. |
| TaskService.ReportOf | src/service/task.ts:135-143 | The report has the abort subject and carries the task's id, name, runsAt, lastTriedAt, number of tries and last result. |
| TaskService.Abort | src/service/task.ts:123-144 | When nothing is abortable: NotFound, nothing changed, no report. Otherwise the first abortable task is aborted and exactly one report about it is sent. |
| ActionRepo.StartedAction | src/repo/action.ts:36-44 | The given attributes, Active, started now, not ended, with no error. |
| ActionRepo.CompletedAction | src/repo/action.ts:54-64 | Completed with the result and ended now. Id, attributes, start and error are kept. |
| ActionRepo.CanceledAction | src/repo/action.ts:81-87 | Only the status changes, to Canceled. No end date and no result are set. |
| ActionRepo.FailedAction | src/repo/action.ts:107-117 | Failed with the error and ended now. Id, attributes, start and result are kept. |
| ActionRepo.EndDateDescendingOrder | src/repo/action.ts:189 | Ascending order of the sort key is latest end date first, with unended actions last. |
| ActionRepo.ActionRepository.Start | src/repo/action.ts:36-44 | Appends the started action under a fresh id. |
| ActionRepo.ActionRepository.Complete | src/repo/action.ts:49-72 | Selects by type and id only, whatever the status. Fails NotFound("action"), changing nothing, when there is no match. |
| ActionRepo.ActionRepository.Cancel | src/repo/action.ts:77-97 | Same selection. Only the status becomes Canceled. |
| ActionRepo.ActionRepository.GiveUp | src/repo/action.ts:102-125 | Same selection. The action becomes failed with the error, ended now. |
| ActionRepo.ActionRepository.FindById | src/repo/action.ts:130-147 | The matching action, or NotFound("action") exactly when there is none. |
| ActionRepo.ActionRepository.FindAuthorizeByTransactionId | src/repo/action.ts:153-161 | Exactly the authorize actions whose purpose is the transaction, in any status. The store is only read. |
| ActionRepo.ActionRepository.SearchMoneyTransferActions | src/repo/action.ts:167-192 | Money transfers from or to the coin account, latest end first, at most the limit (100 by default). What the limit cuts ended no later than what it keeps. No matching action is repeated beyond its occurrences in the store. |
| ActionRepo.ActionRepository.Search | src/repo/action.ts:198-274 | Actions of the type started within the inclusive start-date range and meeting every list filter given; an empty list is a filter not given. Ascending id order, at most the limit (0 means all). The lowest ids are kept, and no matching action is repeated beyond its occurrences in the store. |
| TransactionRepo.TransactionRepository.Start | src/service/transaction/buyCoin.ts:79 | Appends a new in-progress, unexported transaction under a fresh id. |
| TransactionRepo.TransactionRepository.FindById | src/service/transaction/buyCoin.ts:236 | The transaction of that type and id, or NotFound("transaction") exactly when there is none. |
| TransactionRepo.TransactionRepository.Confirm | src/service/transaction/buyCoin.ts:270 | Confirms the in-progress transaction with the new object and potential actions. Fails NotFound, changing nothing, exactly when there is none. |
| TransactionRepo.TransactionRepository.StartExportTasks | src/service/transaction/buyCoin.ts:282 | Marks the first unexported transaction of the type and status as exporting and returns it. Returns nothing, changing nothing, exactly when there is none. |
| TransactionRepo.TransactionRepository.SetTasksExportedById | src/service/transaction/buyCoin.ts:290 | Only the transaction with the id becomes exported. |
| TransactionUtil.Sign | src/service/transaction/util.ts:9-31 | The token carries the transaction. |
| TransactionUtil.Verify | src/service/transaction/util.ts:32-44 | The payload of an unexpired signed token. Otherwise the library's own expired-token or malformed-token error. |
| TransactionUtil.VerifySign | src/service/transaction/util.ts:9-44 | A signed transaction verifies to itself before it expires, and fails as expired from then on. |
| TransactionShared.DepositAuthorization | src/service/transaction/buyCoin.ts:112-124 | An authorize action depositing the amount to the destination, for the transaction's purpose. |
| TransactionShared.WithdrawAuthorization | src/service/transaction/buyCoin.ts:177-189 | An authorize action withdrawing the amount from the source, for the transaction's purpose. |
| TransactionShared.AuthorizeOutcome | src/service/transaction/buyCoin.ts:127-155 | On a hold: completed with amount, hold and endpoint. On a ledger error: failed with that error. |
| TransactionShared.Authorize | src/service/transaction/buyCoin.ts:112-155 | One action appended and one ledger request sent. Returns the completed action, or the classified error. |
| TransactionShared.ConfirmedAuthorizations | src/service/transaction/buyCoin.ts:239-242 | Exactly the authorizations with an end date strictly before the confirmation date. |
| TransactionShared.MoneyTransferFor | src/service/transaction/buyCoin.ts:246-266 | Amount and planned result equal the transaction's amount. The source and the parties are copied. The purpose is the transaction's type and id. |
| TransactionShared.ConfirmedObject | src/service/transaction/buyCoin.ts:238-243 | The transaction's object with only its authorizations replaced by the kept ones. |
| TransactionShared.ConfirmWith | src/service/transaction/buyCoin.ts:238-270 | An in-progress transaction is confirmed in place. Otherwise NotFound with the store unchanged. |
| TransactionShared.NewTask | src/service/transaction/buyCoin.ts:312-344 | Ready at now, 10 tries left, none tried, never tried, no results. |
| TransactionShared.ExportTaskAttributes | src/service/transaction/buyCoin.ts:306-350 | Confirmed: one MoneyTransfer task when a transfer is planned, else none. Canceled or Expired: one CancelMoneyTransfer task with type and id. InProgress: NotImplemented with the status in the message. |
| TransactionShared.ExportedTasksAreClaimable | src/service/transaction/buyCoin.ts:306-353 | Every exported task can be claimed by a worker for its name at any later instant, and it has the full budget. |
| TransactionShared.SaveTasks | src/service/transaction/buyCoin.ts:353 | Saves the tasks in order under consecutive fresh ids. |
| TransactionShared.ExportTasksById | src/service/transaction/buyCoin.ts:297-355 | The found transaction's tasks are appended. A missing transaction or a not-implemented status stores nothing. |
| TransactionShared.ExportTasks | src/service/transaction/buyCoin.ts:277-292 | Nothing when no transaction is pending. Otherwise the first pending one ends exported with its tasks stored. If its status exports nothing, it stays exporting and the failure is returned. |
| BuyCoinService.StartParamsOf | src/service/transaction/buyCoin.ts:62-74 | Type BuyCoin, no authorizations, and every other field copied from the parameters. |
| BuyCoinService.Began | src/service/transaction/buyCoin.ts:79 | The stored transaction is in progress, unexported, with no potential actions. |
| BuyCoinService.AuthorizeWithdrawBankAccount | src/service/transaction/buyCoin.ts:159-221 | A source that is not a payment method fails with Argument before any action or call. Otherwise one bank withdraw hold is placed under one action. |
| BuyCoinService.AuthorizeDepositCoinAccount | src/service/transaction/buyCoin.ts:101-157 | A destination that is not an account fails with Argument before any action or call. Otherwise one coin deposit hold is placed under one action. |
| BuyCoinService.Start | src/service/transaction/buyCoin.ts:46-99 | The transaction is stored first. The case split says which actions and requests follow, which error is returned, and that a token is returned only when both holds succeed. |
| BuyCoinService.Confirm | src/service/transaction/buyCoin.ts:226-272 | A token error or a missing buy fails with nothing changed. Otherwise the buy is confirmed with the kept authorizations and a transfer to its destination. |
| BuyCoinService.ExportTasks | src/service/transaction/buyCoin.ts:277-292 | The export of one pending buy. |
| BuyCoinService.ExportTasksById | src/service/transaction/buyCoin.ts:297-355 | The tasks the buy calls for. |
| WithdrawCoinService.StartParamsOf | src/service/transaction/withdrawCoin.ts:58-69 | Type WithdrawCoin, no destination, no authorizations, and the rest copied. |
| WithdrawCoinService.Began | src/service/transaction/withdrawCoin.ts:74 | The stored transaction is in progress and unexported. |
| WithdrawCoinService.AuthorizeWithdrawCoinAccount | src/service/transaction/withdrawCoin.ts:93-154 | Exactly one coin withdraw hold under one action. Returns the completed action, or the classified error. |
| WithdrawCoinService.Start | src/service/transaction/withdrawCoin.ts:44-91 | Stores the transaction, then places exactly one withdraw hold. Returns the token only when the hold succeeds. |
| WithdrawCoinService.Destination | src/service/transaction/withdrawCoin.ts:193-196 | An anonymous location named after the recipient, with no account. |
| WithdrawCoinService.PointAccounts | src/service/transaction/withdrawCoin.ts:211-216 | Exactly the point accounts the agent owns now, each as often as it is stored, earliest ownedFrom first, so the incentive goes to the earliest-owned one. |
| WithdrawCoinService.PointAccountsCount | src/service/transaction/withdrawCoin.ts:211-216 | Picking point accounts from the ownership search picks every stored point account of the agent at that instant, with its multiplicity. |
| WithdrawCoinService.IncentiveDeposit | src/service/transaction/withdrawCoin.ts:219-227 | A deposit of 1 point to the account, from the recipient to the agent, open for one minute. |
| WithdrawCoinService.IncentiveRequests | src/service/transaction/withdrawCoin.ts:207-234 | No request without an agent id or a point account. Otherwise a deposit to the first point account, confirmed exactly when it opened. |
| WithdrawCoinService.SendIncentive | src/service/transaction/withdrawCoin.ts:217-228 | With at least one point account: one deposit start into the first account, then a confirm of the opened deposit exactly when it opened; nothing at all with no account. The requests sent are exactly IncentiveRequests. |
| WithdrawCoinService.DepositIncentive | src/service/transaction/withdrawCoin.ts:207-234 | Sends exactly those requests and swallows every failure. |
| WithdrawCoinService.Confirm | src/service/transaction/withdrawCoin.ts:159-240 | A token error or a missing withdrawal fails with nothing changed or sent. Otherwise the incentive is attempted and the withdrawal is confirmed whatever became of it. |
| WithdrawCoinService.ExportTasks | src/service/transaction/withdrawCoin.ts:245-260 | The export of one pending withdrawal. |
| WithdrawCoinService.ExportTasksById | src/service/transaction/withdrawCoin.ts:265-323 | The tasks the withdrawal calls for. |
| TransferCoinService.StartParamsOf | src/service/transaction/transferCoin.ts:53-65 | Type TransferCoin, no authorizations, and the rest copied. |
| TransferCoinService.Start | src/service/transaction/transferCoin.ts:38-84 | Only stores the transaction and returns it raw. No action, no call. |
| TransferCoinService.Confirm | src/service/transaction/transferCoin.ts:89-136 | Takes the id directly. A missing transfer fails with nothing changed. Otherwise confirms with the kept authorizations and a transfer to its destination. |
| TransferCoinService.ExportTasks | src/service/transaction/transferCoin.ts:141-156 | The export of one pending transfer, with no effect when none is pending. |
| TransferCoinService.ExportTasksById | src/service/transaction/transferCoin.ts:161-219 | The tasks the transfer calls for. |
| CoinAccountService.SettledKind | src/service/account/coin.ts:82-140 | Deposit exactly for DepositCoin or TransferCoin into a coin account. Withdraw exactly for WithdrawCoin from a coin account. Nothing otherwise. |
| CoinAccountService.FindHold | src/service/account/coin.ts:88-93 | The hold of the first authorization of the kind. 'authorizeAction not found' exactly when there is none or it has no result. |
| CoinAccountService.Settlement | src/service/account/coin.ts:82-140 | No request when nothing is to be settled. Otherwise a confirm on the coin endpoint, or the not-found error. |
| CoinAccountService.TransferFailure | src/service/account/coin.ts:69-151 | The lookup's error first. No failure when nothing is settled. |
| CoinAccountService.TransferRequests | src/service/account/coin.ts:82-140 | At most one request, and it is a confirm on the coin endpoint. |
| CoinAccountService.Settle | src/service/account/coin.ts:69-140 | Sends exactly those requests and returns exactly that failure. |
| CoinAccountService.TransferMoney | src/service/account/coin.ts:56-158 | The action is started before the lookup. On any failure it is given up and the failure returned, never completed. Otherwise it is completed with an empty result. |
| CoinAccountService.BuyCoinSettlesNothing | src/service/account/coin.ts:82-140 | A buy's transfer settles no hold and cannot fail at the ledger. |
| CoinAccountService.PlannedTransferFindsItsTransaction | src/service/account/coin.ts:69 | The transfer a confirmation plans looks up exactly the transaction it was planned from. |
| CoinAccountService.SettlementConfirmsChosenHold | src/service/account/coin.ts:88-94 | The one request is the confirm of the chosen hold on the service of its type. |
| OwnershipInfoRepo.Upserted | src/repo/ownershipInfo.ts:21-29 | Replaces the first record with the identifier, or appends when there is none. |
| OwnershipInfoRepo.UpsertKeepsUnique | src/repo/ownershipInfo.ts:21-29 | Unique identifiers stay unique. The saved record is the only one with its identifier. Others are kept. |
| OwnershipInfoRepo.UpsertIdempotent | src/repo/ownershipInfo.ts:21-29 | Saving the same record twice is saving it once. |
| OwnershipInfoRepo.OwnershipInfoRepository.Save | src/repo/ownershipInfo.ts:21-29 | The store becomes the upsert of the record, with identifiers kept unique. |
| OwnershipInfoRepo.OwnershipInfoRepository.Search | src/repo/ownershipInfo.ts:34-73 | Exactly the records of the good type meeting each given condition; ownership at an instant includes both ends. Sorted by start of ownership, a permutation of the matches, the store only read. |
| OrderRepo.Effective | src/repo/order.ts:98-100 | A single value given becomes a one-element list and replaces the list. |
| OrderRepo.Normalized | src/repo/order.ts:98-145 | Every singular filter moved into its plural list. Nothing else changes. |
| OrderRepo.SingularMeansOneElementList | src/repo/order.ts:98-110 | A single seller id and the one-element list of it select the same orders. |
| OrderRepo.EmptyListMatchesNothing | src/repo/order.ts:135-139 | An empty order-number list matches no order. |
| OrderRepo.CreatedIfAbsent | src/repo/order.ts:38-44 | Appends only when no order has the number. Otherwise the store is unchanged. |
| OrderRepo.CreateIfNotExistIdempotent | src/repo/order.ts:38-44 | Creating twice is creating once, and order numbers stay unique. |
| OrderRepo.OrderRepository.FindByOrderInquiryKey | src/repo/order.ts:18-32 | An order matching theater code, confirmation number and telephone. NotFound exactly when there is none. |
| OrderRepo.OrderRepository.CreateIfNotExist | src/repo/order.ts:38-44 | The store becomes `CreatedIfAbsent`, with numbers kept unique. |
| OrderRepo.OrderRepository.ChangeStatus | src/repo/order.ts:51-60 | Only the numbered order's status changes. NotFound, changing nothing, exactly when it is absent. |
| OrderRepo.OrderRepository.FindByOrderNumber | src/repo/order.ts:66-76 | The numbered order, or NotFound exactly when it is absent. |
| OrderRepo.OrderRepository.Search | src/repo/order.ts:82-180 | Exactly the matching orders, all inside the date range, sorted by order date, a permutation of the matches. |
| OrderRepo.ChangedStatusIsFound | src/repo/order.ts:51-76 | After a status change, the lookup by number finds the changed order. |
| Seqs.Limit | src/repo/action.ts:189 | The cursor limit: 0 keeps all, and a negative limit acts as its absolute value. The result is always a prefix. |
| Seqs.SortedLimit | src/repo/action.ts:270-271 | A sort on a key followed by a limit. Every element kept was in the input, in ascending key order, as many as the limit allows. Nothing cut has a key smaller than one kept. The result is a sub-multiset of the input. |

## Left out

- The transaction store (`repo/transaction.ts`) is not part of this model.
  `TransactionRepo.TransactionRepository` states the meaning the coordinators rely on:
  - `confirm` confirms only an in-progress transaction of the type and id;
  - `startExportTasks` claims the first unexported transaction of the type and status;
  - `setTasksExportedById` marks its tasks exported.
- depositCoin and returnCoin coordinators: not part of this model. Their branches in the settlement dispatcher are modelled.
- JSON Web Token signing and verification (RFC 7519) are replaced by a concrete token.
  - It carries the transaction and expires at the transaction's `expires` to the millisecond. The real token's lifetime is a whole number of seconds counted from the moment of signing, and the library checks the clock in seconds; that rounding is not modelled.
  - The secret and the issuer are not modelled.
  - A forged token stands for any string that does not verify.
- The raw error shape:
  - the action records the ledger error as it was thrown, not the copied `{...error, name, message}` payload;
  - a failure of `giveUp` itself cannot occur in the model, because the action was just started, and is not modelled.
- ActionRepo.ActionRepository.Search: both start-date bounds are required values. The source's parameter type lets a caller omit one, and the query then carries an undefined bound, whose meaning depends on the database driver; such a call is not modelled.
- TaskRepo.SelectNext: among tasks with equal tries and equal due time the earliest stored is chosen. The source sorts on those two keys only and leaves the order of ties to MongoDB, which promises none.
- MongoDB and network errors from the stores are not modelled. Every store call succeeds, apart from the NotFound it reports itself.
- An error from the ownership search inside the withdraw incentive is not modelled. The catch block swallows it like the ledger errors, which are modelled.
- Clock readings: each operation takes one instant `now`, used for every `new Date()` and `moment()` it reads.
- Ids: ids are natural numbers instead of ObjectId strings. An authorize action's purpose is kept as the transaction's type and id, not the whole transaction, since only those two fields are queried.
- Promise.all over task saves is modelled as a sequential loop.
- Concurrency between pollers and workers is not modelled. Each `findOneAndUpdate` or multi-update is one atomic step.
- The order search's rewriting of the caller's own conditions object is modelled as a new value (`OrderRepo.Normalized`), so the aliasing is not captured.
- Task handlers (`taskFunctions.ts`) are not part of this model:
  - only which names have a handler is modelled (`TaskService.HasHandler`: sendEmailMessage and moneyTransfer);
  - what a handler does is a parameter.
- The report mail: only the report's fields are modelled, not its ISO-formatted text or the mail transport.
- Debug logging, console output and `moment` calendar semantics are left out, because they have no effect on the state.
- Account opening (`open` in the coin account service) and the point account service are left out: remote account creation and Redis number issuance.
- Organization store and schema declarations: not part of this model; they add no logic.
- TransactionRepo.TransactionRepository.Start requires the stored parameters to carry a destination for every type but a withdrawal. That is what the source's types demand of `start`.
