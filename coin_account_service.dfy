/**
 * The settlement dispatcher run by a money-transfer task: it records a
 * money-transfer action, finds the confirmed transaction the transfer is
 * for, chooses by transaction type and location kind which authorization's
 * hold to settle on the coin ledger, settles it, and completes the action,
 * or gives it up when anything fails.
 */
module CoinAccountService {
  import opened Wrappers
  import opened Factory
  import opened Pecorino
  import opened ActionRepo
  import opened TransactionRepo
  import opened TransactionShared
  import CoinAccountRepo

  const AUTHORIZE_ACTION_NOT_FOUND: string := "authorizeAction not found"

  /**
   * The kind of authorization a money transfer settles: a deposit into a
   * coin account for a deposit or a transfer, a withdrawal from a coin
   * account for a withdrawal, and nothing in any other case.
   */
  function SettledKind(txType: TransactionType, transfer: ActionAttributes): (k: Option<AuthorizeObjectType>)
    requires transfer.MoneyTransferAttributes?
    ensures k == Some(Deposit) <==> (txType == DepositCoin || txType == TransferCoin) && transfer.toLocation.typeOf == CoinAccount
    ensures k == Some(Withdraw) <==> txType == WithdrawCoin && transfer.fromLocation.typeOf == CoinAccount
    ensures k != Some(Transfer)
  {
    match txType
    case DepositCoin => if transfer.toLocation.typeOf == CoinAccount then Some(Deposit) else None
    case TransferCoin => if transfer.toLocation.typeOf == CoinAccount then Some(Deposit) else None
    case WithdrawCoin => if transfer.fromLocation.typeOf == CoinAccount then Some(Withdraw) else None
    case BuyCoin => None
    case ReturnCoin => None
  }

  predicate IsAuthorizationOf(a: Action, kind: AuthorizeObjectType) {
    a.attributes.AuthorizeAttributes? && a.attributes.obj.typeOf == kind
  }

  /**
   * The hold of the first authorization of `kind`, or 'authorizeAction not
   * found' when there is none or it has no authorization result.
   */
  function FindHold(authorizeActions: seq<Action>, kind: AuthorizeObjectType): (r: Result<Hold>)
    ensures r.Err? ==> r.error == PlainError(AUTHORIZE_ACTION_NOT_FOUND)
    ensures (forall i :: 0 <= i < |authorizeActions| ==> !IsAuthorizationOf(authorizeActions[i], kind)) ==> r.Err?
    ensures r.Ok? <==>
              exists k :: 0 <= k < |authorizeActions| && IsAuthorizationOf(authorizeActions[k], kind)
                && (forall j :: 0 <= j < k ==> !IsAuthorizationOf(authorizeActions[j], kind))
                && authorizeActions[k].result.Some? && authorizeActions[k].result.value.AuthorizeResult?
    ensures r.Ok? ==>
              exists k :: 0 <= k < |authorizeActions| && IsAuthorizationOf(authorizeActions[k], kind)
                && (forall j :: 0 <= j < k ==> !IsAuthorizationOf(authorizeActions[j], kind))
                && authorizeActions[k].result == Some(AuthorizeResult(authorizeActions[k].result.value.amount, r.value,
                                                                      authorizeActions[k].result.value.pecorinoEndpoint))
  {
    match Seqs.FirstIndex(authorizeActions, (a: Action) => IsAuthorizationOf(a, kind))
    case None => Err(PlainError(AUTHORIZE_ACTION_NOT_FOUND))
    case Some(k) =>
      var result := authorizeActions[k].result;
      if result.Some? && result.value.AuthorizeResult? then Ok(result.value.pecorinoTransaction)
      else Err(PlainError(AUTHORIZE_ACTION_NOT_FOUND))
  }

  /**
   * What settling the money transfer for the found transaction `t` asks of
   * the coin ledger: no request when nothing is to be settled or the hold's
   * type is unknown, the confirmation of the chosen hold otherwise, or the
   * error when the chosen authorization is missing.
   */
  function Settlement(t: Transaction, transfer: ActionAttributes, coin: CoinAccountRepo.PecorinoRepository): (r: Result<Option<Request>>)
    requires transfer.MoneyTransferAttributes?
    ensures SettledKind(t.attributes.typeOf, transfer).None? ==> r == Ok(None)
    ensures r.Err? ==> (SettledKind(t.attributes.typeOf, transfer).Some?
                        && r == Err(PlainError(AUTHORIZE_ACTION_NOT_FOUND)))
    ensures r.Ok? && r.value.Some? ==> r.value.value.endpoint == coin.endpoint && r.value.value.call.Confirm?
  {
    match SettledKind(t.attributes.typeOf, transfer)
    case None => Ok(None)
    case Some(kind) =>
      match FindHold(t.attributes.obj.authorizeActions, kind)
      case Err(e) => Err(e)
      case Ok(hold) => Ok(coin.SettleTransaction(hold))
  }

  /** The error a money transfer ends with, if any: the lookup's, the settlement's or the ledger's. */
  function TransferFailure(found: Result<Transaction>, transfer: ActionAttributes, coin: CoinAccountRepo.PecorinoRepository,
                           settleReply: Outcome): (e: Option<Error>)
    requires transfer.MoneyTransferAttributes?
    ensures found.Err? ==> e == Some(found.error)
    ensures found.Ok? && Settlement(found.value, transfer, coin) == Ok(None) ==> e.None?
  {
    if found.Err? then Some(found.error)
    else match Settlement(found.value, transfer, coin)
      case Err(e) => Some(e)
      case Ok(None) => None
      case Ok(Some(_)) => if settleReply.Fail? then Some(settleReply.error) else None
  }

  /** The requests a money transfer sends to the coin ledger: at most one. */
  function TransferRequests(found: Result<Transaction>, transfer: ActionAttributes, coin: CoinAccountRepo.PecorinoRepository)
    : (r: seq<Request>)
    requires transfer.MoneyTransferAttributes?
    ensures |r| <= 1
    ensures |r| == 1 ==> r[0].call.Confirm? && r[0].endpoint == coin.endpoint
  {
    if found.Err? then []
    else match Settlement(found.value, transfer, coin)
      case Ok(Some(request)) => [request]
      case _ => []
  }

  /** Settles what the found transaction calls for and reports the failure, if any. */
  method Settle(found: Result<Transaction>, transfer: ActionAttributes, ledger: LedgerLog,
                coin: CoinAccountRepo.PecorinoRepository, settleReply: Outcome)
    returns (failure: Option<Error>)
    requires transfer.MoneyTransferAttributes?
    modifies ledger
    ensures failure == TransferFailure(found, transfer, coin, settleReply)
    ensures ledger.requests == old(ledger.requests) + TransferRequests(found, transfer, coin)
  {
    failure := None;
    if found.Err? {
      failure := Some(found.error);
    } else {
      var settlement := Settlement(found.value, transfer, coin);
      if settlement.Err? {
        failure := Some(settlement.error);
      } else if settlement.value.Some? {
        var sent := ledger.Send(settlement.value.value, settleReply);
        if sent.Fail? {
          failure := Some(sent.error);
        }
      }
    }
  }

  /**
   * Runs a money transfer: the action is started before the transaction is
   * looked up; at most one hold is settled; on any failure the action is
   * given up and the failure returned, so it is never completed; otherwise
   * it is completed with an empty result.
   */
  method TransferMoney(transfer: ActionAttributes, now: Time, actionRepo: ActionRepository, txRepo: TransactionRepository,
                       ledger: LedgerLog, coin: CoinAccountRepo.PecorinoRepository, settleReply: Outcome)
    returns (r: Outcome)
    requires transfer.MoneyTransferAttributes? && actionRepo.Valid() && txRepo.Valid()
    modifies actionRepo, ledger
    ensures actionRepo.Valid() && actionRepo.nextId == old(actionRepo.nextId) + 1
    ensures ledger.requests == old(ledger.requests)
              + TransferRequests(txRepo.FindById(transfer.purpose.typeOf, transfer.purpose.id), transfer, coin)
    ensures var failure := TransferFailure(txRepo.FindById(transfer.purpose.typeOf, transfer.purpose.id), transfer, coin, settleReply);
            var started := StartedAction(old(actionRepo.nextId), transfer, now);
            && (failure.Some? ==>
                  r == Fail(failure.value)
                  && actionRepo.actions == old(actionRepo.actions) + [FailedAction(started, failure.value, now)])
            && (failure.None? ==>
                  r == Pass
                  && actionRepo.actions == old(actionRepo.actions) + [CompletedAction(started, MoneyTransferResult(None), now)])
  {
    var action := actionRepo.Start(transfer, now);
    ghost var started := actionRepo.actions;
    ghost var last := |started| - 1;
    assert IsMatchAt(started, MoneyTransferAction, action.id, last);
    var found := txRepo.FindById(transfer.purpose.typeOf, transfer.purpose.id);
    var failure := Settle(found, transfer, ledger, coin, settleReply);
    if failure.Some? {
      var gaveUp := actionRepo.GiveUp(MoneyTransferAction, action.id, failure.value, now);
      ghost var k: nat :| IsMatchAt(started, MoneyTransferAction, action.id, k)
                          && gaveUp.value == FailedAction(started[k], failure.value, now)
                          && actionRepo.actions == started[k := gaveUp.value];
      MatchUnique(started, MoneyTransferAction, action.id, k, last);
      r := Fail(failure.value);
    } else {
      var completed := actionRepo.Complete(MoneyTransferAction, action.id, MoneyTransferResult(None), now);
      ghost var k: nat :| IsMatchAt(started, MoneyTransferAction, action.id, k)
                          && completed.value == CompletedAction(started[k], MoneyTransferResult(None), now)
                          && actionRepo.actions == started[k := completed.value];
      MatchUnique(started, MoneyTransferAction, action.id, k, last);
      r := Pass;
    }
  }

  /** A buy settles no hold at all: whatever its locations, its money transfer sends nothing to the coin ledger. */
  lemma BuyCoinSettlesNothing(t: Transaction, transfer: ActionAttributes, coin: CoinAccountRepo.PecorinoRepository)
    requires transfer.MoneyTransferAttributes? && t.attributes.typeOf == BuyCoin
    ensures TransferRequests(Ok(t), transfer, coin) == []
    ensures TransferFailure(Ok(t), transfer, coin, Fail(PlainError(""))).None?
  {
  }

  /**
   * The money transfer a confirmation plans is for the transaction it was
   * planned from: running it looks up exactly that transaction.
   */
  lemma PlannedTransferFindsItsTransaction(txRepo: TransactionRepository, t: Transaction, toLocation: Location)
    requires txRepo.Valid() && t in txRepo.transactions
    ensures txRepo.FindById(MoneyTransferFor(t, toLocation).purpose.typeOf, MoneyTransferFor(t, toLocation).purpose.id) == Ok(t)
  {
    var found := txRepo.FindById(t.attributes.typeOf, t.id);
    var i :| 0 <= i < |txRepo.transactions| && txRepo.transactions[i] == t;
    var j :| 0 <= j < |txRepo.transactions| && txRepo.transactions[j] == found.value;
    SameIdSameIndex(txRepo.transactions, i, j);
  }

  /**
   * Settling the chosen hold confirms exactly the ledger transaction of
   * that hold, on the service that keeps holds of its type.
   */
  lemma SettlementConfirmsChosenHold(t: Transaction, transfer: ActionAttributes, coin: CoinAccountRepo.PecorinoRepository)
    requires transfer.MoneyTransferAttributes? && SettledKind(t.attributes.typeOf, transfer).Some?
    requires FindHold(t.attributes.obj.authorizeActions, SettledKind(t.attributes.typeOf, transfer).value).Ok?
    ensures var hold := FindHold(t.attributes.obj.authorizeActions, SettledKind(t.attributes.typeOf, transfer).value).value;
            !hold.typeOf.OtherTransaction? ==>
              TransferRequests(Ok(t), transfer, coin) == [Request(coin.endpoint, Confirm(ServiceFor(hold.typeOf).value, hold.id))]
  {
  }
}
