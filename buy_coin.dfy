/**
 * The buy-coin saga: a buyer pays from a bank account (a payment method)
 * into a coin account. Starting places a withdraw hold on the bank account,
 * then a deposit hold on the coin account, each under an authorize action;
 * confirming attaches the finished authorizations and plans the money
 * transfer; exporting turns the settled transaction into queued tasks.
 */
module BuyCoinService {
  import opened Wrappers
  import opened Factory
  import opened Pecorino
  import opened ErrorHandler
  import opened ActionRepo
  import opened TaskRepo
  import opened TransactionRepo
  import opened TransactionUtil
  import opened TransactionShared
  import CoinAccountRepo
  import BankAccountPaymentRepo

  const ARGUMENT_NAME: string := "params"
  const FROM_LOCATION_MESSAGE: string := "params.object.fromLocation.typeOf must be PaymentMethod"
  const TO_LOCATION_MESSAGE: string := "params.object.toLocation.typeOf must be Account"

  /** What the store keeps for a new buy: the caller's parties, amount, locations, notes and expiry, and no authorizations yet. */
  function StartParamsOf(params: StartParams): (p: StartParams)
    ensures p.typeOf == BuyCoin && p.obj.authorizeActions == []
    ensures p.(typeOf := params.typeOf, obj := p.obj.(authorizeActions := params.obj.authorizeActions)) == params
  {
    params.(typeOf := BuyCoin, obj := params.obj.(authorizeActions := []))
  }

  /** The in-progress transaction the store holds after starting a buy under id `id`. */
  function Began(params: StartParams, id: nat): (t: Transaction)
    ensures t.id == id && t.attributes == StartParamsOf(params) && t.status == InProgress
    ensures t.potentialActions.None? && t.tasksExportationStatus == Unexported
  {
    Transaction(id, StartParamsOf(params), InProgress, None, Unexported)
  }

  /** The authorize action of the bank withdraw, once the bank ledger has replied. */
  function WithdrawOutcome(t: Transaction, id: nat, bank: BankAccountPaymentRepo.PecorinoRepository, reply: Result<Hold>, now: Time): Action {
    AuthorizeOutcome(StartedAction(id, WithdrawAuthorization(t), now), reply, bank.endpoint, t.attributes.obj.amount, now)
  }

  /** The authorize action of the coin deposit, once the coin ledger has replied. */
  function DepositOutcome(t: Transaction, id: nat, coin: CoinAccountRepo.PecorinoRepository, reply: Result<Hold>, now: Time): Action {
    AuthorizeOutcome(StartedAction(id, DepositAuthorization(t), now), reply, coin.endpoint, t.attributes.obj.amount, now)
  }

  /**
   * Holds the amount on the paying bank account. A source that is not a
   * payment method is refused before any action starts.
   */
  method AuthorizeWithdrawBankAccount(t: Transaction, now: Time, actionRepo: ActionRepository, ledger: LedgerLog,
                                      bank: BankAccountPaymentRepo.PecorinoRepository, reply: Result<Hold>)
    returns (r: Result<Action>)
    requires actionRepo.Valid()
    modifies actionRepo, ledger
    ensures actionRepo.Valid()
    ensures t.attributes.obj.fromLocation.typeOf != PaymentMethod ==>
              r == Err(Argument(ARGUMENT_NAME, FROM_LOCATION_MESSAGE))
              && actionRepo.actions == old(actionRepo.actions) && actionRepo.nextId == old(actionRepo.nextId)
              && ledger.requests == old(ledger.requests)
    ensures t.attributes.obj.fromLocation.typeOf == PaymentMethod ==>
              actionRepo.nextId == old(actionRepo.nextId) + 1
              && actionRepo.actions == old(actionRepo.actions) + [WithdrawOutcome(t, old(actionRepo.nextId), bank, reply, now)]
              && ledger.requests == old(ledger.requests) + [bank.AuthorizeAmount(t)]
              && (reply.Ok? ==> r == Ok(WithdrawOutcome(t, old(actionRepo.nextId), bank, reply, now)))
              && (reply.Err? ==> r == Err(HandlePecorinoError(reply.error)))
  {
    if t.attributes.obj.fromLocation.typeOf != PaymentMethod {
      return Err(Argument(ARGUMENT_NAME, FROM_LOCATION_MESSAGE));
    }
    r := Authorize(actionRepo, ledger, WithdrawAuthorization(t), bank.AuthorizeAmount(t), reply,
                   bank.endpoint, t.attributes.obj.amount, now);
  }

  /**
   * Holds the amount for deposit on the receiving coin account. A
   * destination that is not an account is refused before any action starts.
   */
  method AuthorizeDepositCoinAccount(t: Transaction, now: Time, actionRepo: ActionRepository, ledger: LedgerLog,
                                     coin: CoinAccountRepo.PecorinoRepository, reply: Result<Hold>)
    returns (r: Result<Action>)
    requires actionRepo.Valid() && t.attributes.obj.toLocation.Some?
    modifies actionRepo, ledger
    ensures actionRepo.Valid()
    ensures t.attributes.obj.toLocation.value.typeOf != Account ==>
              r == Err(Argument(ARGUMENT_NAME, TO_LOCATION_MESSAGE))
              && actionRepo.actions == old(actionRepo.actions) && actionRepo.nextId == old(actionRepo.nextId)
              && ledger.requests == old(ledger.requests)
    ensures t.attributes.obj.toLocation.value.typeOf == Account ==>
              actionRepo.nextId == old(actionRepo.nextId) + 1
              && actionRepo.actions == old(actionRepo.actions) + [DepositOutcome(t, old(actionRepo.nextId), coin, reply, now)]
              && ledger.requests == old(ledger.requests) + [coin.StartDeposit(t)]
              && (reply.Ok? ==> r == Ok(DepositOutcome(t, old(actionRepo.nextId), coin, reply, now)))
              && (reply.Err? ==> r == Err(HandlePecorinoError(reply.error)))
  {
    if t.attributes.obj.toLocation.value.typeOf != Account {
      return Err(Argument(ARGUMENT_NAME, TO_LOCATION_MESSAGE));
    }
    r := Authorize(actionRepo, ledger, DepositAuthorization(t), coin.StartDeposit(t), reply,
                   coin.endpoint, t.attributes.obj.amount, now);
  }

  /**
   * Starts a buy: the transaction is stored first, whatever follows; then
   * the bank withdraw is authorized; only when it succeeds is the
   * destination checked and the coin deposit authorized; only when both
   * succeed is the signed transaction returned.
   */
  method Start(params: StartParams, now: Time, txRepo: TransactionRepository, actionRepo: ActionRepository,
               ledger: LedgerLog, bank: BankAccountPaymentRepo.PecorinoRepository, coin: CoinAccountRepo.PecorinoRepository,
               withdrawReply: Result<Hold>, depositReply: Result<Hold>)
    returns (r: Result<Token>)
    requires txRepo.Valid() && actionRepo.Valid() && params.obj.toLocation.Some?
    modifies txRepo, actionRepo, ledger
    ensures txRepo.Valid() && actionRepo.Valid()
    ensures txRepo.transactions == old(txRepo.transactions) + [Began(params, old(txRepo.nextId))]
    ensures var t := Began(params, old(txRepo.nextId));
            var withdrawn := WithdrawOutcome(t, old(actionRepo.nextId), bank, withdrawReply, now);
            var deposited := DepositOutcome(t, old(actionRepo.nextId) + 1, coin, depositReply, now);
            if params.obj.fromLocation.typeOf != PaymentMethod then
              r == Err(Argument(ARGUMENT_NAME, FROM_LOCATION_MESSAGE))
              && actionRepo.actions == old(actionRepo.actions) && ledger.requests == old(ledger.requests)
            else if withdrawReply.Err? then
              r == Err(HandlePecorinoError(withdrawReply.error))
              && actionRepo.actions == old(actionRepo.actions) + [withdrawn]
              && ledger.requests == old(ledger.requests) + [bank.AuthorizeAmount(t)]
            else if params.obj.toLocation.value.typeOf != Account then
              r == Err(Argument(ARGUMENT_NAME, TO_LOCATION_MESSAGE))
              && actionRepo.actions == old(actionRepo.actions) + [withdrawn]
              && ledger.requests == old(ledger.requests) + [bank.AuthorizeAmount(t)]
            else
              (depositReply.Err? ==> r == Err(HandlePecorinoError(depositReply.error)))
              && (depositReply.Ok? ==> r == Ok(Sign(t)))
              && actionRepo.actions == old(actionRepo.actions) + [withdrawn, deposited]
              && ledger.requests == old(ledger.requests) + [bank.AuthorizeAmount(t), coin.StartDeposit(t)]
  {
    var t := txRepo.Start(StartParamsOf(params));
    var withdrawn := AuthorizeWithdrawBankAccount(t, now, actionRepo, ledger, bank, withdrawReply);
    if withdrawn.Err? {
      return Err(withdrawn.error);
    }
    var deposited := AuthorizeDepositCoinAccount(t, now, actionRepo, ledger, coin, depositReply);
    if deposited.Err? {
      return Err(deposited.error);
    }
    r := Ok(Sign(t));
  }

  /** Where a buy's money goes: its destination coin account. */
  function Destination(t: Transaction): Location
    requires t.attributes.obj.toLocation.Some?
  {
    t.attributes.obj.toLocation.value
  }

  /**
   * Confirms the buy the token carries: an invalid or expired token, or a
   * transaction the store does not have, fails with the store unchanged;
   * otherwise the stored transaction is confirmed with the authorizations
   * that ended before `confirmDate` and a money transfer to its destination.
   */
  method Confirm(token: Token, confirmDate: Time, now: Time, txRepo: TransactionRepository, actionRepo: ActionRepository)
    returns (r: Outcome)
    requires txRepo.Valid()
    modifies txRepo
    ensures txRepo.Valid()
    ensures Verify(token, now).Err? ==> r == Fail(Verify(token, now).error) && txRepo.transactions == old(txRepo.transactions)
    ensures Verify(token, now).Ok? && old(txRepo.FindById(BuyCoin, Verify(token, now).value.id)).Err? ==>
              r == Fail(NotFound("transaction")) && txRepo.transactions == old(txRepo.transactions)
    ensures Verify(token, now).Ok? && old(txRepo.FindById(BuyCoin, Verify(token, now).value.id)).Ok? ==>
              var t := old(txRepo.FindById(BuyCoin, Verify(token, now).value.id)).value;
              ConfirmedAs(t, ConfirmedObject(t, actionRepo.FindAuthorizeByTransactionId(t.id), confirmDate),
                          PotentialActions(Some(MoneyTransferFor(t, Destination(t)))),
                          old(txRepo.transactions), txRepo.transactions, r)
  {
    var verified := Verify(token, now);
    if verified.Err? {
      return Fail(verified.error);
    }
    var found := txRepo.FindById(BuyCoin, verified.value.id);
    if found.Err? {
      return Fail(found.error);
    }
    r := ConfirmWith(found.value, Destination(found.value), confirmDate, txRepo, actionRepo);
  }

  /** Exports the tasks of one buy in status `status` that is pending export. */
  method ExportTasks(status: TransactionStatus, now: Time, txRepo: TransactionRepository, taskRepo: TaskRepository)
    returns (r: Outcome)
    requires txRepo.Valid() && taskRepo.Valid()
    modifies txRepo, taskRepo
    ensures txRepo.Valid() && taskRepo.Valid()
    ensures ExportedOne(BuyCoin, status, now, old(taskRepo.nextId), old(txRepo.transactions), txRepo.transactions,
                        old(taskRepo.tasks), taskRepo.tasks, r)
  {
    r := TransactionShared.ExportTasks(BuyCoin, status, now, txRepo, taskRepo);
  }

  /** Stores the tasks the buy `id` calls for. */
  method ExportTasksById(id: nat, now: Time, txRepo: TransactionRepository, taskRepo: TaskRepository)
    returns (r: Result<seq<Task>>)
    requires txRepo.Valid() && taskRepo.Valid()
    modifies taskRepo
    ensures taskRepo.Valid()
    ensures ExportedById(txRepo.FindById(BuyCoin, id), now, old(taskRepo.nextId), old(taskRepo.tasks), taskRepo.tasks, r)
  {
    r := TransactionShared.ExportTasksById(BuyCoin, id, now, txRepo, taskRepo);
  }
}
