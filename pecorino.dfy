/**
 * The external ledger services (deposit, transfer and withdraw transaction
 * services at some endpoint) seen only through the requests sent to them.
 * Every request is appended to a log; whether it succeeds, and what it
 * returns, is the environment's choice and is passed in as the reply.
 */
module Pecorino {
  import opened Wrappers
  import opened Factory

  datatype Service = DepositService | TransferService | WithdrawService

  datatype WithdrawRequest = WithdrawRequest(
    expires: Time,
    agent: Party,
    recipient: Party,
    amount: int,
    notes: Option<string>,
    fromAccountNumber: Option<string>)

  datatype DepositRequest = DepositRequest(
    expires: Time,
    agent: Party,
    recipient: Party,
    amount: int,
    notes: Option<string>,
    toAccountNumber: Option<string>,
    accountType: Option<AccountType>)

  datatype LedgerCall =
    | StartWithdraw(withdraw: WithdrawRequest)
    | StartDeposit(deposit: DepositRequest)
    | Confirm(confirmedBy: Service, transactionId: string)
    | Cancel(canceledBy: Service, transactionId: string)

  datatype Request = Request(endpoint: string, call: LedgerCall)

  /** The service that keeps holds of a given ledger transaction type. */
  function ServiceFor(t: LedgerTransactionType): (s: Option<Service>)
    ensures s.None? <==> t.OtherTransaction?
    ensures s.Some? ==> HoldTypeOf(s.value) == t
  {
    match t
    case DepositTransaction => Some(DepositService)
    case TransferTransaction => Some(TransferService)
    case WithdrawTransaction => Some(WithdrawService)
    case OtherTransaction(_) => None
  }

  /** The ledger transaction type a service keeps: the inverse of ServiceFor. */
  function HoldTypeOf(s: Service): (t: LedgerTransactionType)
    ensures !t.OtherTransaction?
  {
    match s
    case DepositService => DepositTransaction
    case TransferService => TransferTransaction
    case WithdrawService => WithdrawTransaction
  }

  lemma ServiceForHoldTypeOf(s: Service)
    ensures ServiceFor(HoldTypeOf(s)) == Some(s)
  {
  }

  /** The log of every request made to the external services, in order. */
  class LedgerLog {
    var requests: seq<Request>

    constructor ()
      ensures requests == []
    {
      requests := [];
    }

    /** Sends a request that opens a ledger transaction; the reply is the hold it opened or the error thrown. */
    method Open(request: Request, reply: Result<Hold>) returns (r: Result<Hold>)
      modifies this
      ensures requests == old(requests) + [request]
      ensures r == reply
    {
      requests := requests + [request];
      r := reply;
    }

    /** Sends a request with no return value (a confirm or a cancel). */
    method Send(request: Request, reply: Outcome) returns (r: Outcome)
      modifies this
      ensures requests == old(requests) + [request]
      ensures r == reply
    {
      requests := requests + [request];
      r := reply;
    }
  }
}

/**
 * The gateway to the coin-account ledger: builds the hold requests for a
 * transaction and routes a settlement to the service that keeps the hold.
 */
module CoinAccountRepo {
  import opened Wrappers
  import opened Factory
  import opened Pecorino

  datatype PecorinoRepository = PecorinoRepository(endpoint: string) {

    /** Places a withdraw hold on the source coin account, kept one hour past the transaction's expiry. */
    function AuthorizeAmount(transaction: Transaction): (r: Request)
      ensures r.endpoint == endpoint && r.call.StartWithdraw?
      ensures r.call.withdraw.expires - transaction.attributes.expires == HOUR
      ensures r.call.withdraw.amount == transaction.attributes.obj.amount
      ensures r.call.withdraw.notes == transaction.attributes.obj.notes
      ensures r.call.withdraw.fromAccountNumber == transaction.attributes.obj.fromLocation.accountNumber
      ensures r.call.withdraw.agent == transaction.attributes.agent
      ensures r.call.withdraw.recipient == transaction.attributes.recipient
    {
      var t := transaction.attributes;
      Request(endpoint, StartWithdraw(WithdrawRequest(
        t.expires + HOUR, t.agent, t.recipient, t.obj.amount, t.obj.notes,
        t.obj.fromLocation.accountNumber)))
    }

    /** Places a deposit hold on the destination coin account, kept one hour past the transaction's expiry. */
    function StartDeposit(transaction: Transaction): (r: Request)
      requires transaction.attributes.obj.toLocation.Some?
      ensures r.endpoint == endpoint && r.call.StartDeposit?
      ensures r.call.deposit.expires - transaction.attributes.expires == HOUR
      ensures r.call.deposit.amount == transaction.attributes.obj.amount
      ensures r.call.deposit.notes == transaction.attributes.obj.notes
      ensures r.call.deposit.toAccountNumber == transaction.attributes.obj.toLocation.value.accountNumber
      ensures r.call.deposit.agent == transaction.attributes.agent
      ensures r.call.deposit.recipient == transaction.attributes.recipient
      ensures r.call.deposit.accountType.None?
    {
      var t := transaction.attributes;
      Request(endpoint, Pecorino.StartDeposit(DepositRequest(
        t.expires + HOUR, t.agent, t.recipient, t.obj.amount, t.obj.notes,
        t.obj.toLocation.value.accountNumber, None)))
    }

    /**
     * Confirms the hold on the service that keeps holds of its type, or
     * makes no call at all for a type the ledger does not have.
     */
    function SettleTransaction(hold: Hold): (r: Option<Request>)
      ensures r.None? <==> hold.typeOf.OtherTransaction?
      ensures r.Some? ==> r.value.endpoint == endpoint && r.value.call.Confirm?
      ensures r.Some? ==> r.value.call.transactionId == hold.id
      ensures r.Some? ==> HoldTypeOf(r.value.call.confirmedBy) == hold.typeOf
    {
      match ServiceFor(hold.typeOf)
      case None => None
      case Some(s) => Some(Request(endpoint, Confirm(s, hold.id)))
    }
  }
}

/**
 * The gateway to the bank-account (payment method) ledger: hold requests,
 * and settlement or voiding routed to the service that keeps the hold.
 */
module BankAccountPaymentRepo {
  import opened Wrappers
  import opened Factory
  import opened Pecorino

  datatype PecorinoRepository = PecorinoRepository(endpoint: string) {

    /** Places a withdraw hold on the paying bank account, kept one hour past the transaction's expiry. */
    function AuthorizeAmount(transaction: Transaction): (r: Request)
      ensures r.endpoint == endpoint && r.call.StartWithdraw?
      ensures r.call.withdraw.expires - transaction.attributes.expires == HOUR
      ensures r.call.withdraw.amount == transaction.attributes.obj.amount
      ensures r.call.withdraw.notes == transaction.attributes.obj.notes
      ensures r.call.withdraw.fromAccountNumber == transaction.attributes.obj.fromLocation.accountNumber
      ensures r.call.withdraw.agent == transaction.attributes.agent
      ensures r.call.withdraw.recipient == transaction.attributes.recipient
    {
      var t := transaction.attributes;
      Request(endpoint, StartWithdraw(WithdrawRequest(
        t.expires + HOUR, t.agent, t.recipient, t.obj.amount, t.obj.notes,
        t.obj.fromLocation.accountNumber)))
    }

    /** Places a deposit hold on the receiving bank account, kept one hour past the transaction's expiry. */
    function StartDeposit(transaction: Transaction): (r: Request)
      requires transaction.attributes.obj.toLocation.Some?
      ensures r.endpoint == endpoint && r.call.StartDeposit?
      ensures r.call.deposit.expires - transaction.attributes.expires == HOUR
      ensures r.call.deposit.amount == transaction.attributes.obj.amount
      ensures r.call.deposit.notes == transaction.attributes.obj.notes
      ensures r.call.deposit.toAccountNumber == transaction.attributes.obj.toLocation.value.accountNumber
      ensures r.call.deposit.agent == transaction.attributes.agent
      ensures r.call.deposit.recipient == transaction.attributes.recipient
    {
      var t := transaction.attributes;
      Request(endpoint, Pecorino.StartDeposit(DepositRequest(
        t.expires + HOUR, t.agent, t.recipient, t.obj.amount, t.obj.notes,
        t.obj.toLocation.value.accountNumber, None)))
    }

    /** Confirms the hold on the service that keeps holds of its type; no call for an unknown type. */
    function SettleTransaction(hold: Hold): (r: Option<Request>)
      ensures r.None? <==> hold.typeOf.OtherTransaction?
      ensures r.Some? ==> r.value.endpoint == endpoint && r.value.call.Confirm?
      ensures r.Some? ==> r.value.call.transactionId == hold.id
      ensures r.Some? ==> HoldTypeOf(r.value.call.confirmedBy) == hold.typeOf
    {
      match ServiceFor(hold.typeOf)
      case None => None
      case Some(s) => Some(Request(endpoint, Confirm(s, hold.id)))
    }

    /** Cancels the hold on the service that keeps holds of its type; never a confirm, no call for an unknown type. */
    function VoidTransaction(hold: Hold): (r: Option<Request>)
      ensures r.None? <==> hold.typeOf.OtherTransaction?
      ensures r.Some? ==> r.value.endpoint == endpoint && r.value.call.Cancel?
      ensures r.Some? ==> r.value.call.transactionId == hold.id
      ensures r.Some? ==> HoldTypeOf(r.value.call.canceledBy) == hold.typeOf
    {
      match ServiceFor(hold.typeOf)
      case None => None
      case Some(s) => Some(Request(endpoint, Cancel(s, hold.id)))
    }

    /** Settling and voiding the same hold address the same service about the same ledger transaction. */
    lemma SettleAndVoidAgree(hold: Hold)
      ensures SettleTransaction(hold).Some? <==> VoidTransaction(hold).Some?
      ensures SettleTransaction(hold).Some? ==>
        SettleTransaction(hold).value.call.confirmedBy == VoidTransaction(hold).value.call.canceledBy
    {
    }
  }
}
