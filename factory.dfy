/**
 * The shared domain records: transactions, actions, holds on the external
 * ledger, parties and locations, and the domain error taxonomy. Timestamps
 * are milliseconds since the epoch.
 */
module Factory {
  import opened Wrappers

  type Time = nat

  const MINUTE: nat := 60000
  const HOUR: nat := 3600000

  /** The domain errors, plus the raw errors that foreign code throws. */
  datatype Error =
    | Argument(argumentName: string, message: string)
    | Unauthorized(message: string)
    | Forbidden(message: string)
    | NotFound(entity: string)
    | RateLimitExceeded(message: string)
    | ServiceUnavailable(message: string)
    | NotImplemented(message: string)
      /** an error thrown by a client of an external service, with its name and status code */
    | ServiceError(name: string, code: int, message: string)
      /** a plain error raised with a message */
    | PlainError(message: string)
      /** a failure of the bearer-token library (invalid or expired token) */
    | TokenError(name: string)

  datatype Result<T> = Ok(value: T) | Err(error: Error)

  datatype Outcome = Pass | Fail(error: Error)

  datatype Party = Party(typeOf: string, id: Option<string>, name: string, url: string)

  datatype AccountType = Coin | Point | Default

  /** The `typeOf` tags of locations and of owned goods. */
  datatype LocationType = Account | CoinAccount | PaymentMethod | Anonymous

  datatype Location = Location(
    typeOf: LocationType,
    accountType: Option<AccountType>,
    accountNumber: Option<string>,
    name: Option<string>)

  datatype TransactionType = BuyCoin | DepositCoin | ReturnCoin | TransferCoin | WithdrawCoin

  datatype TransactionStatus = InProgress | Confirmed | Canceled | Expired

  /** The kinds of transaction the external ledger keeps holds for. */
  datatype LedgerTransactionType =
    | DepositTransaction
    | TransferTransaction
    | WithdrawTransaction
    | OtherTransaction(name: string)

  /** A hold on the external ledger, as the ledger returned it when the hold was placed. */
  datatype Hold = Hold(typeOf: LedgerTransactionType, id: string)

  datatype ActionType = AuthorizeAction | MoneyTransferAction

  datatype ActionStatus =
    | ActiveActionStatus
    | CompletedActionStatus
    | CanceledActionStatus
    | FailedActionStatus

  datatype AuthorizeObjectType = Deposit | Withdraw | Transfer

  datatype AuthorizeObject = AuthorizeObject(
    typeOf: AuthorizeObjectType,
    amount: int,
    fromLocation: Option<Location>,
    toLocation: Option<Location>,
    notes: Option<string>)

  /** The transaction an action serves. */
  datatype Purpose = Purpose(typeOf: TransactionType, id: nat)

  /** What a caller passes to the action ledger's `start`. */
  datatype ActionAttributes =
    | AuthorizeAttributes(
        obj: AuthorizeObject,
        agent: Party,
        recipient: Party,
        purpose: Purpose)
    | MoneyTransferAttributes(
        description: Option<string>,
        resultAmount: int,
        agent: Party,
        recipient: Party,
        amount: int,
        fromLocation: Location,
        toLocation: Location,
        purpose: Purpose)
  {
    function TypeOf(): ActionType {
      if AuthorizeAttributes? then AuthorizeAction else MoneyTransferAction
    }

    /** The result carried in the attributes themselves (a money transfer's planned amount). */
    function InitialResult(): Option<ActionResult> {
      if MoneyTransferAttributes? then Some(MoneyTransferResult(Some(resultAmount))) else None
    }
  }

  datatype ActionResult =
    | AuthorizeResult(amount: int, pecorinoTransaction: Hold, pecorinoEndpoint: string)
    | MoneyTransferResult(transferredAmount: Option<int>)

  datatype Action = Action(
    id: nat,
    attributes: ActionAttributes,
    actionStatus: ActionStatus,
    startDate: Time,
    endDate: Option<Time>,
    result: Option<ActionResult>,
    error: Option<Error>)

  datatype TransactionObject = TransactionObject(
    amount: int,
    fromLocation: Location,
    toLocation: Option<Location>,
    notes: Option<string>,
    authorizeActions: seq<Action>)

  /** What a coordinator passes to the transaction store's `start`. */
  datatype StartParams = StartParams(
    typeOf: TransactionType,
    agent: Party,
    recipient: Party,
    obj: TransactionObject,
    expires: Time)

  datatype PotentialActions = PotentialActions(moneyTransfer: Option<ActionAttributes>)

  datatype TasksExportationStatus = Unexported | Exporting | Exported

  datatype Transaction = Transaction(
    id: nat,
    attributes: StartParams,
    status: TransactionStatus,
    potentialActions: Option<PotentialActions>,
    tasksExportationStatus: TasksExportationStatus)
}
