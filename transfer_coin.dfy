/**
 * The transfer-coin saga: coins move from one account to another. Starting
 * only stores the transaction, with no hold and no token; confirming takes
 * the transaction id directly; exporting queues the tasks.
 */
module TransferCoinService {
  import opened Wrappers
  import opened Factory
  import opened ActionRepo
  import opened TaskRepo
  import opened TransactionRepo
  import opened TransactionShared

  /** What the store keeps for a new transfer: the caller's parties, amount, locations, notes and expiry, and no authorizations. */
  function StartParamsOf(params: StartParams): (p: StartParams)
    ensures p.typeOf == TransferCoin && p.obj.authorizeActions == []
    ensures p.(typeOf := params.typeOf, obj := p.obj.(authorizeActions := params.obj.authorizeActions)) == params
  {
    params.(typeOf := TransferCoin, obj := params.obj.(authorizeActions := []))
  }

  /**
   * Starts a transfer: the transaction is stored and returned as it is. No
   * action is started and no ledger is called.
   */
  method Start(params: StartParams, txRepo: TransactionRepository) returns (t: Transaction)
    requires txRepo.Valid() && params.obj.toLocation.Some?
    modifies txRepo
    ensures txRepo.Valid()
    ensures t == Transaction(old(txRepo.nextId), StartParamsOf(params), InProgress, None, Unexported)
    ensures txRepo.transactions == old(txRepo.transactions) + [t]
  {
    t := txRepo.Start(StartParamsOf(params));
  }

  /** Where a transfer's money goes: its destination. */
  function Destination(t: Transaction): Location
    requires t.attributes.obj.toLocation.Some?
  {
    t.attributes.obj.toLocation.value
  }

  /**
   * Confirms the transfer `transactionId`, with no token to verify: a
   * transaction the store does not have fails with nothing changed;
   * otherwise it is confirmed with the authorizations that ended before
   * `confirmDate` and a money transfer to its destination.
   */
  method Confirm(transactionId: nat, confirmDate: Time, txRepo: TransactionRepository, actionRepo: ActionRepository)
    returns (r: Outcome)
    requires txRepo.Valid()
    modifies txRepo
    ensures txRepo.Valid()
    ensures old(txRepo.FindById(TransferCoin, transactionId)).Err? ==>
              r == Fail(NotFound("transaction")) && txRepo.transactions == old(txRepo.transactions)
    ensures old(txRepo.FindById(TransferCoin, transactionId)).Ok? ==>
              var t := old(txRepo.FindById(TransferCoin, transactionId)).value;
              ConfirmedAs(t, ConfirmedObject(t, actionRepo.FindAuthorizeByTransactionId(transactionId), confirmDate),
                          PotentialActions(Some(MoneyTransferFor(t, Destination(t)))),
                          old(txRepo.transactions), txRepo.transactions, r)
  {
    var found := txRepo.FindById(TransferCoin, transactionId);
    if found.Err? {
      return Fail(found.error);
    }
    r := ConfirmWith(found.value, Destination(found.value), confirmDate, txRepo, actionRepo);
  }

  /** Exports the tasks of one transfer in status `status` that is pending export. */
  method ExportTasks(status: TransactionStatus, now: Time, txRepo: TransactionRepository, taskRepo: TaskRepository)
    returns (r: Outcome)
    requires txRepo.Valid() && taskRepo.Valid()
    modifies txRepo, taskRepo
    ensures txRepo.Valid() && taskRepo.Valid()
    ensures ExportedOne(TransferCoin, status, now, old(taskRepo.nextId), old(txRepo.transactions), txRepo.transactions,
                        old(taskRepo.tasks), taskRepo.tasks, r)
  {
    r := TransactionShared.ExportTasks(TransferCoin, status, now, txRepo, taskRepo);
  }

  /** Stores the tasks the transfer `id` calls for. */
  method ExportTasksById(id: nat, now: Time, txRepo: TransactionRepository, taskRepo: TaskRepository)
    returns (r: Result<seq<Task>>)
    requires txRepo.Valid() && taskRepo.Valid()
    modifies taskRepo
    ensures taskRepo.Valid()
    ensures ExportedById(txRepo.FindById(TransferCoin, id), now, old(taskRepo.nextId), old(taskRepo.tasks), taskRepo.tasks, r)
  {
    r := TransactionShared.ExportTasksById(TransferCoin, id, now, txRepo, taskRepo);
  }
}
