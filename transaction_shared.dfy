/**
 * The steps the three transaction coordinators (buy coin, withdraw coin,
 * transfer coin) have in common: placing one hold on a ledger under an
 * authorize action, choosing the authorizations a confirmation keeps,
 * building the money-transfer action a confirmed transaction will run, and
 * exporting a settled transaction as queued tasks.
 */
module TransactionShared {
  import opened Wrappers
  import opened Factory
  import opened Seqs
  import opened ErrorHandler
  import opened Pecorino
  import opened ActionRepo
  import opened TaskRepo
  import opened TransactionRepo

  /** Every exported task may be tried this many times. */
  const TASK_TRIES: int := 10

  // ---- authorization ------------------------------------------------------------

  /** The authorize action for a hold withdrawing the transaction's amount from its source. */
  function WithdrawAuthorization(t: Transaction): (a: ActionAttributes)
    ensures a.AuthorizeAttributes? && a.TypeOf() == AuthorizeAction
    ensures a.obj == AuthorizeObject(Withdraw, t.attributes.obj.amount, Some(t.attributes.obj.fromLocation), None, t.attributes.obj.notes)
    ensures a.agent == t.attributes.agent && a.recipient == t.attributes.recipient
    ensures a.purpose == Purpose(t.attributes.typeOf, t.id)
  {
    AuthorizeAttributes(AuthorizeObject(Withdraw, t.attributes.obj.amount, Some(t.attributes.obj.fromLocation), None, t.attributes.obj.notes),
                        t.attributes.agent, t.attributes.recipient, Purpose(t.attributes.typeOf, t.id))
  }

  /** The authorize action for a hold depositing the transaction's amount to its destination. */
  function DepositAuthorization(t: Transaction): (a: ActionAttributes)
    ensures a.AuthorizeAttributes? && a.TypeOf() == AuthorizeAction
    ensures a.obj == AuthorizeObject(Deposit, t.attributes.obj.amount, None, t.attributes.obj.toLocation, t.attributes.obj.notes)
    ensures a.agent == t.attributes.agent && a.recipient == t.attributes.recipient
    ensures a.purpose == Purpose(t.attributes.typeOf, t.id)
  {
    AuthorizeAttributes(AuthorizeObject(Deposit, t.attributes.obj.amount, None, t.attributes.obj.toLocation, t.attributes.obj.notes),
                        t.attributes.agent, t.attributes.recipient, Purpose(t.attributes.typeOf, t.id))
  }

  /** The authorize action once the ledger has replied: completed with the hold it placed, or failed with the error. */
  function AuthorizeOutcome(a: Action, reply: Result<Hold>, endpoint: string, amount: int, now: Time): (r: Action)
    ensures reply.Ok? ==> r.actionStatus == CompletedActionStatus && r.result == Some(AuthorizeResult(amount, reply.value, endpoint))
    ensures reply.Err? ==> r.actionStatus == FailedActionStatus && r.error == Some(reply.error) && r.result == a.result
    ensures r.id == a.id && r.attributes == a.attributes && r.endDate == Some(now)
  {
    if reply.Ok? then CompletedAction(a, AuthorizeResult(amount, reply.value, endpoint), now)
    else FailedAction(a, reply.error, now)
  }

  /**
   * Starts an authorize action, sends the hold request to the ledger, and
   * completes the action with the hold or, when the ledger fails, gives it
   * up with the error and fails with the classified error.
   */
  method Authorize(actionRepo: ActionRepository, ledger: LedgerLog, attributes: ActionAttributes,
                   request: Request, reply: Result<Hold>, endpoint: string, amount: int, now: Time)
    returns (r: Result<Action>)
    requires actionRepo.Valid()
    modifies actionRepo, ledger
    ensures actionRepo.Valid() && actionRepo.nextId == old(actionRepo.nextId) + 1
    ensures ledger.requests == old(ledger.requests) + [request]
    ensures actionRepo.actions == old(actionRepo.actions)
              + [AuthorizeOutcome(StartedAction(old(actionRepo.nextId), attributes, now), reply, endpoint, amount, now)]
    ensures reply.Ok? ==> r == Ok(actionRepo.actions[|actionRepo.actions| - 1])
    ensures reply.Err? ==> r == Err(HandlePecorinoError(reply.error))
  {
    var action := actionRepo.Start(attributes, now);
    ghost var started := actionRepo.actions;
    ghost var last := |started| - 1;
    assert IsMatchAt(started, action.attributes.TypeOf(), action.id, last);
    var hold := ledger.Open(request, reply);
    if hold.Err? {
      var gaveUp := actionRepo.GiveUp(action.attributes.TypeOf(), action.id, hold.error, now);
      ghost var k: nat :| IsMatchAt(started, action.attributes.TypeOf(), action.id, k)
                          && gaveUp.value == FailedAction(started[k], hold.error, now)
                          && actionRepo.actions == started[k := gaveUp.value];
      MatchUnique(started, action.attributes.TypeOf(), action.id, k, last);
      r := Err(HandlePecorinoError(hold.error));
    } else {
      var completed := actionRepo.Complete(action.attributes.TypeOf(), action.id,
                                           AuthorizeResult(amount, hold.value, endpoint), now);
      ghost var k: nat :| IsMatchAt(started, action.attributes.TypeOf(), action.id, k)
                          && completed.value == CompletedAction(started[k], AuthorizeResult(amount, hold.value, endpoint), now)
                          && actionRepo.actions == started[k := completed.value];
      MatchUnique(started, action.attributes.TypeOf(), action.id, k, last);
      r := Ok(completed.value);
    }
  }

  // ---- confirmation ---------------------------------------------------------------

  /**
   * The authorizations a confirmation keeps: those that had ended strictly
   * before the confirmation date, so a hold still in flight is ignored.
   */
  function ConfirmedAuthorizations(actions: seq<Action>, confirmDate: Time): (r: seq<Action>)
    ensures forall a :: a in r <==> a in actions && a.endDate.Some? && a.endDate.value < confirmDate
    ensures multiset(r) <= multiset(actions)
  {
    Filter(actions, (a: Action) => a.endDate.Some? && a.endDate.value < confirmDate)
  }

  /**
   * The money transfer a confirmed transaction will run: the transaction's
   * amount (also as the planned result) from its source to `toLocation`,
   * between its agent and recipient, described by its notes, for its sake.
   */
  function MoneyTransferFor(t: Transaction, toLocation: Location): (r: ActionAttributes)
    ensures r.MoneyTransferAttributes? && r.TypeOf() == MoneyTransferAction
    ensures r.amount == t.attributes.obj.amount && r.resultAmount == t.attributes.obj.amount
    ensures r.InitialResult() == Some(MoneyTransferResult(Some(t.attributes.obj.amount)))
    ensures r.fromLocation == t.attributes.obj.fromLocation && r.toLocation == toLocation
    ensures r.agent == t.attributes.agent && r.recipient == t.attributes.recipient
    ensures r.description == t.attributes.obj.notes
    ensures r.purpose == Purpose(t.attributes.typeOf, t.id)
  {
    MoneyTransferAttributes(t.attributes.obj.notes, t.attributes.obj.amount, t.attributes.agent,
                            t.attributes.recipient, t.attributes.obj.amount, t.attributes.obj.fromLocation,
                            toLocation, Purpose(t.attributes.typeOf, t.id))
  }

  /** The transaction object a confirmation persists: `t`'s own, holding the kept authorizations. */
  function ConfirmedObject(t: Transaction, authorizations: seq<Action>, confirmDate: Time): (obj: TransactionObject)
    ensures obj.authorizeActions == ConfirmedAuthorizations(authorizations, confirmDate)
    ensures obj.(authorizeActions := t.attributes.obj.authorizeActions) == t.attributes.obj
  {
    t.attributes.obj.(authorizeActions := ConfirmedAuthorizations(authorizations, confirmDate))
  }

  /**
   * The transaction store after confirming the stored transaction `t` with
   * its new object and potential actions: done when `t` is in progress,
   * and otherwise NotFound with the store unchanged.
   */
  ghost predicate ConfirmedAs(t: Transaction, obj: TransactionObject, potentialActions: PotentialActions,
                              before: seq<Transaction>, after: seq<Transaction>, r: Outcome) {
    && (t.status != InProgress ==> r == Fail(NotFound("transaction")) && after == before)
    && (t.status == InProgress ==>
          r == Pass
          && exists k: nat :: k < |before| && before[k] == t
               && after == before[k := t.(status := Confirmed, attributes := t.attributes.(obj := obj),
                                            potentialActions := Some(potentialActions))])
  }

  /** In a store whose ids are distinct, an id determines the position. */
  lemma SameIdSameIndex(s: seq<Transaction>, i: nat, j: nat)
    requires forall a, b :: 0 <= a < b < |s| ==> s[a].id != s[b].id
    requires i < |s| && j < |s| && s[i].id == s[j].id
    ensures i == j
  {
  }

  /**
   * Confirms the found transaction `t`: its object carries the kept
   * authorizations and its potential action is the money transfer to
   * `toLocation`.
   */
  method ConfirmWith(t: Transaction, toLocation: Location, confirmDate: Time,
                     txRepo: TransactionRepository, actionRepo: ActionRepository)
    returns (r: Outcome)
    requires txRepo.Valid() && t in txRepo.transactions
    modifies txRepo
    ensures txRepo.Valid() && txRepo.nextId == old(txRepo.nextId)
    ensures ConfirmedAs(t, ConfirmedObject(t, actionRepo.FindAuthorizeByTransactionId(t.id), confirmDate),
                        PotentialActions(Some(MoneyTransferFor(t, toLocation))),
                        old(txRepo.transactions), txRepo.transactions, r)
  {
    var obj := ConfirmedObject(t, actionRepo.FindAuthorizeByTransactionId(t.id), confirmDate);
    var potentialActions := PotentialActions(Some(MoneyTransferFor(t, toLocation)));
    ghost var before := txRepo.transactions;
    ghost var j :| 0 <= j < |before| && before[j] == t;
    forall u | u in txRepo.transactions && IsTransaction(u, t.attributes.typeOf, t.id)
      ensures WellTyped(u.attributes.(obj := obj))
    {
      var i :| 0 <= i < |before| && before[i] == u;
      SameIdSameIndex(before, i, j);
    }
    r := txRepo.Confirm(t.attributes.typeOf, t.id, obj, potentialActions);
    if t.status == InProgress {
      assert IsTransaction(before[j], t.attributes.typeOf, t.id) && before[j].status == InProgress;
      ghost var k: nat :| k < |before| && IsTransaction(before[k], t.attributes.typeOf, t.id)
        && before[k].status == InProgress
        && txRepo.transactions == before[k := before[k].(status := Confirmed, attributes := before[k].attributes.(obj := obj),
                                                           potentialActions := Some(potentialActions))];
      SameIdSameIndex(before, k, j);
    } else {
      forall i | 0 <= i < |before| && IsTransaction(before[i], t.attributes.typeOf, t.id)
        ensures before[i].status != InProgress
      {
        SameIdSameIndex(before, i, j);
      }
    }
  }

  // ---- task export ----------------------------------------------------------------

  function StatusName(s: TransactionStatus): string {
    match s
    case InProgress => "InProgress"
    case Confirmed => "Confirmed"
    case Canceled => "Canceled"
    case Expired => "Expired"
  }

  /** A fresh task: ready at `now`, never tried, with the full budget of tries. */
  function NewTask(name: TaskName, data: TaskData, now: Time): (a: TaskAttributes)
    ensures a.name == name && a.data == data && a.status == Ready && a.runsAt == now
    ensures a.remainingNumberOfTries == TASK_TRIES && a.numberOfTried == 0
    ensures a.lastTriedAt.None? && a.executionResults == []
  {
    TaskAttributes(name, Ready, now, TASK_TRIES, None, 0, [], data)
  }

  /**
   * The tasks a transaction's status calls for: a confirmed transaction
   * runs its money transfer, if it has one; a canceled or expired one
   * cancels it; any other status is not implemented.
   */
  function ExportTaskAttributes(t: Transaction, now: Time): (r: Result<seq<TaskAttributes>>)
    ensures r.Err? <==> t.status == InProgress
    ensures r.Err? ==> r.error == NotImplemented("Transaction status \"" + StatusName(t.status) + "\" not implemented.")
    ensures r.Ok? ==> |r.value| <= 1
    ensures t.status == Confirmed ==>
              r == Ok(if t.potentialActions.Some? && t.potentialActions.value.moneyTransfer.Some?
                      then [NewTask(MoneyTransfer, MoneyTransferData(t.potentialActions.value.moneyTransfer.value), now)]
                      else [])
    ensures t.status == Canceled || t.status == Expired ==>
              r == Ok([NewTask(CancelMoneyTransfer, CancelMoneyTransferData(Purpose(t.attributes.typeOf, t.id)), now)])
  {
    match t.status
    case Confirmed =>
      if t.potentialActions.Some? && t.potentialActions.value.moneyTransfer.Some? then
        Ok([NewTask(MoneyTransfer, MoneyTransferData(t.potentialActions.value.moneyTransfer.value), now)])
      else Ok([])
    case Canceled => Ok([NewTask(CancelMoneyTransfer, CancelMoneyTransferData(Purpose(t.attributes.typeOf, t.id)), now)])
    case Expired => Ok([NewTask(CancelMoneyTransfer, CancelMoneyTransferData(Purpose(t.attributes.typeOf, t.id)), now)])
    case InProgress => Err(NotImplemented("Transaction status \"" + StatusName(t.status) + "\" not implemented."))
  }

  /**
   * Every task an export produces can be claimed by a worker for its name
   * at any later instant, and carries the full budget of tries.
   */
  lemma ExportedTasksAreClaimable(t: Transaction, now: Time, id: nat, later: Time)
    requires ExportTaskAttributes(t, now).Ok? && now < later
    ensures forall a :: a in ExportTaskAttributes(t, now).value ==>
              Executable(Task(id, a), a.name, later) && Budget(a) == TASK_TRIES
  {
  }

  /** The tasks `attributes` stored one after another, with ids from `firstId` on. */
  function Numbered(attributes: seq<TaskAttributes>, firstId: nat): (r: seq<Task>)
    ensures |r| == |attributes|
    ensures forall i :: 0 <= i < |r| ==> r[i] == Task(firstId + i, attributes[i])
  {
    seq(|attributes|, i requires 0 <= i < |attributes| => Task(firstId + i, attributes[i]))
  }

  /** Saves the tasks one by one, in order. */
  method SaveTasks(taskRepo: TaskRepository, attributes: seq<TaskAttributes>) returns (saved: seq<Task>)
    requires taskRepo.Valid()
    modifies taskRepo
    ensures taskRepo.Valid() && taskRepo.nextId == old(taskRepo.nextId) + |attributes|
    ensures saved == Numbered(attributes, old(taskRepo.nextId))
    ensures taskRepo.tasks == old(taskRepo.tasks) + saved
  {
    saved := [];
    var i := 0;
    while i < |attributes|
      invariant 0 <= i <= |attributes|
      invariant taskRepo.Valid() && taskRepo.nextId == old(taskRepo.nextId) + i
      invariant saved == Numbered(attributes[..i], old(taskRepo.nextId))
      invariant taskRepo.tasks == old(taskRepo.tasks) + saved
    {
      var t := taskRepo.Save(attributes[i]);
      saved := saved + [t];
      assert attributes[..i + 1] == attributes[..i] + [attributes[i]];
      i := i + 1;
    }
    assert attributes[..i] == attributes;
  }

  /**
   * The task store after exporting the transaction `found` (or failing to
   * find it): its tasks appended with ids from `firstId` on, or nothing
   * stored when it is missing or its status calls for no export.
   */
  ghost predicate ExportedById(found: Result<Transaction>, now: Time, firstId: nat,
                               before: seq<Task>, after: seq<Task>, r: Result<seq<Task>>) {
    match found
    case Err(e) => r == Err(e) && after == before
    case Ok(t) =>
      match ExportTaskAttributes(t, now)
      case Err(e) => r == Err(e) && after == before
      case Ok(attributes) => r == Ok(Numbered(attributes, firstId)) && after == before + Numbered(attributes, firstId)
  }

  /** Stores the tasks the transaction of type `typeOf` with id `id` calls for. */
  method ExportTasksById(typeOf: TransactionType, id: nat, now: Time,
                         txRepo: TransactionRepository, taskRepo: TaskRepository)
    returns (r: Result<seq<Task>>)
    requires txRepo.Valid() && taskRepo.Valid()
    modifies taskRepo
    ensures taskRepo.Valid()
    ensures ExportedById(txRepo.FindById(typeOf, id), now, old(taskRepo.nextId), old(taskRepo.tasks), taskRepo.tasks, r)
  {
    var found := txRepo.FindById(typeOf, id);
    if found.Err? {
      return Err(found.error);
    }
    var attributes := ExportTaskAttributes(found.value, now);
    if attributes.Err? {
      return Err(attributes.error);
    }
    var saved := SaveTasks(taskRepo, attributes.value);
    r := Ok(saved);
  }

  /**
   * Both stores after exporting one transaction of type `typeOf` in status
   * `status`: nothing happens when none of them is pending export;
   * otherwise the first pending one ends exported with its tasks stored,
   * or, when its status calls for no export, stays exporting with nothing
   * stored and the failure returned.
   */
  ghost predicate ExportedOne(typeOf: TransactionType, status: TransactionStatus, now: Time, firstId: nat,
                              txBefore: seq<Transaction>, txAfter: seq<Transaction>,
                              tasksBefore: seq<Task>, tasksAfter: seq<Task>, r: Outcome) {
    if forall i :: 0 <= i < |txBefore| ==> !ExportPending(txBefore[i], typeOf, status) then
      r == Pass && txAfter == txBefore && tasksAfter == tasksBefore
    else
      exists k: nat ::
        && k < |txBefore| && ExportPending(txBefore[k], typeOf, status)
        && (forall j :: 0 <= j < k ==> !ExportPending(txBefore[j], typeOf, status))
        && match ExportTaskAttributes(txBefore[k], now)
           case Err(e) =>
             r == Fail(e) && tasksAfter == tasksBefore
             && txAfter == txBefore[k := txBefore[k].(tasksExportationStatus := Exporting)]
           case Ok(attributes) =>
             r == Pass && tasksAfter == tasksBefore + Numbered(attributes, firstId)
             && txAfter == txBefore[k := txBefore[k].(tasksExportationStatus := Exported)]
  }

  /** A stored transaction is what the lookup by its own type and id finds. */
  lemma StoredIsFound(txRepo: TransactionRepository, k: nat)
    requires txRepo.Valid() && k < |txRepo.transactions|
    ensures txRepo.FindById(txRepo.transactions[k].attributes.typeOf, txRepo.transactions[k].id) == Ok(txRepo.transactions[k])
  {
    var t := txRepo.transactions[k];
    var found := txRepo.FindById(t.attributes.typeOf, t.id);
    assert IsTransaction(txRepo.transactions[k], t.attributes.typeOf, t.id);
    var j :| 0 <= j < |txRepo.transactions| && txRepo.transactions[j] == found.value;
    SameIdSameIndex(txRepo.transactions, j, k);
  }

  /** The export of the pending transaction at index `k`, once its outcome is known, is the one `ExportedOne` describes. */
  lemma ExportedOneAt(typeOf: TransactionType, status: TransactionStatus, now: Time, firstId: nat,
                      txBefore: seq<Transaction>, txAfter: seq<Transaction>,
                      tasksBefore: seq<Task>, tasksAfter: seq<Task>, r: Outcome, k: nat)
    requires k < |txBefore| && ExportPending(txBefore[k], typeOf, status)
    requires forall j :: 0 <= j < k ==> !ExportPending(txBefore[j], typeOf, status)
    requires match ExportTaskAttributes(txBefore[k], now)
             case Err(e) =>
               r == Fail(e) && tasksAfter == tasksBefore
               && txAfter == txBefore[k := txBefore[k].(tasksExportationStatus := Exporting)]
             case Ok(attributes) =>
               r == Pass && tasksAfter == tasksBefore + Numbered(attributes, firstId)
               && txAfter == txBefore[k := txBefore[k].(tasksExportationStatus := Exported)]
    ensures ExportedOne(typeOf, status, now, firstId, txBefore, txAfter, tasksBefore, tasksAfter, r)
  {
  }

  /**
   * The second half of an export: the transaction at index `k` of `before`
   * has been claimed; its tasks are stored and, when that succeeds, it is
   * marked exported.
   */
  method FinishExport(typeOf: TransactionType, ghost before: seq<Transaction>, ghost k: nat, claimed: Transaction,
                      now: Time, txRepo: TransactionRepository, taskRepo: TaskRepository)
    returns (r: Outcome)
    requires txRepo.Valid() && taskRepo.Valid()
    requires k < |before| && before[k].attributes.typeOf == typeOf
    requires claimed == before[k].(tasksExportationStatus := Exporting) && txRepo.transactions == before[k := claimed]
    modifies txRepo, taskRepo
    ensures txRepo.Valid() && taskRepo.Valid()
    ensures match ExportTaskAttributes(before[k], now)
            case Err(e) =>
              r == Fail(e) && taskRepo.tasks == old(taskRepo.tasks) && txRepo.transactions == before[k := claimed]
            case Ok(attributes) =>
              r == Pass && taskRepo.tasks == old(taskRepo.tasks) + Numbered(attributes, old(taskRepo.nextId))
              && txRepo.transactions == before[k := before[k].(tasksExportationStatus := Exported)]
  {
    assert ExportTaskAttributes(claimed, now) == ExportTaskAttributes(before[k], now);
    StoredIsFound(txRepo, k);
    var exported := ExportTasksById(typeOf, claimed.id, now, txRepo, taskRepo);
    if exported.Err? {
      r := Fail(exported.error);
    } else {
      ghost var claimedStore := txRepo.transactions;
      txRepo.SetTasksExportedById(claimed.id);
      assert forall i :: 0 <= i < |claimedStore| && i != k ==> claimedStore[i].id != claimed.id;
      assert txRepo.transactions == before[k := before[k].(tasksExportationStatus := Exported)];
      r := Pass;
    }
  }

  /** Claims one transaction pending export, stores its tasks and marks it exported. */
  method ExportTasks(typeOf: TransactionType, status: TransactionStatus, now: Time,
                     txRepo: TransactionRepository, taskRepo: TaskRepository)
    returns (r: Outcome)
    requires txRepo.Valid() && taskRepo.Valid()
    modifies txRepo, taskRepo
    ensures txRepo.Valid() && taskRepo.Valid()
    ensures ExportedOne(typeOf, status, now, old(taskRepo.nextId), old(txRepo.transactions), txRepo.transactions,
                        old(taskRepo.tasks), taskRepo.tasks, r)
  {
    var claimed := txRepo.StartExportTasks(typeOf, status);
    if claimed.None? {
      return Pass;
    }
    ghost var before := old(txRepo.transactions);
    ghost var k: nat :| k < |before| && ExportPending(before[k], typeOf, status)
      && (forall j :: 0 <= j < k ==> !ExportPending(before[j], typeOf, status))
      && claimed.value == before[k].(tasksExportationStatus := Exporting)
      && txRepo.transactions == before[k := claimed.value];
    r := FinishExport(typeOf, before, k, claimed.value, now, txRepo, taskRepo);
    ExportedOneAt(typeOf, status, now, old(taskRepo.nextId), before, txRepo.transactions,
                  old(taskRepo.tasks), taskRepo.tasks, r, k);
  }
}
