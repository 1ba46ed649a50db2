/**
 * The withdraw-coin saga: coins leave a coin account to be paid out to
 * nobody in particular. Starting places one withdraw hold on the coin
 * account; confirming attaches the finished authorizations, plans the
 * transfer to an anonymous recipient and, best effort, deposits a one-point
 * incentive to the agent's point account; exporting queues the tasks.
 */
module WithdrawCoinService {
  import opened Wrappers
  import opened Factory
  import opened Seqs
  import opened Pecorino
  import opened ErrorHandler
  import opened ActionRepo
  import opened TaskRepo
  import opened TransactionRepo
  import opened TransactionUtil
  import opened TransactionShared
  import opened OwnershipInfoRepo
  import CoinAccountRepo

  /** The points deposited for settling in coins. */
  const INCENTIVE: int := 1
  const INCENTIVE_NOTES: string := "コイン決済インセンティブ"

  /** What the store keeps for a new withdrawal: the caller's parties, amount, source, notes and expiry; no destination and no authorizations. */
  function StartParamsOf(params: StartParams): (p: StartParams)
    ensures p.typeOf == WithdrawCoin && p.obj.authorizeActions == [] && p.obj.toLocation.None?
    ensures p.(typeOf := params.typeOf, obj := p.obj.(toLocation := params.obj.toLocation, authorizeActions := params.obj.authorizeActions)) == params
  {
    params.(typeOf := WithdrawCoin, obj := params.obj.(toLocation := None, authorizeActions := []))
  }

  function Began(params: StartParams, id: nat): (t: Transaction)
    ensures t.id == id && t.attributes == StartParamsOf(params) && t.status == InProgress
    ensures t.potentialActions.None? && t.tasksExportationStatus == Unexported
  {
    Transaction(id, StartParamsOf(params), InProgress, None, Unexported)
  }

  /** The authorize action of the coin withdraw, once the coin ledger has replied. */
  function WithdrawOutcome(t: Transaction, id: nat, coin: CoinAccountRepo.PecorinoRepository, reply: Result<Hold>, now: Time): Action {
    AuthorizeOutcome(StartedAction(id, WithdrawAuthorization(t), now), reply, coin.endpoint, t.attributes.obj.amount, now)
  }

  /** Holds the amount on the source coin account under one authorize action. */
  method AuthorizeWithdrawCoinAccount(t: Transaction, now: Time, actionRepo: ActionRepository, ledger: LedgerLog,
                                      coin: CoinAccountRepo.PecorinoRepository, reply: Result<Hold>)
    returns (r: Result<Action>)
    requires actionRepo.Valid()
    modifies actionRepo, ledger
    ensures actionRepo.Valid() && actionRepo.nextId == old(actionRepo.nextId) + 1
    ensures actionRepo.actions == old(actionRepo.actions) + [WithdrawOutcome(t, old(actionRepo.nextId), coin, reply, now)]
    ensures ledger.requests == old(ledger.requests) + [coin.AuthorizeAmount(t)]
    ensures reply.Ok? ==> r == Ok(WithdrawOutcome(t, old(actionRepo.nextId), coin, reply, now))
    ensures reply.Err? ==> r == Err(HandlePecorinoError(reply.error))
  {
    r := Authorize(actionRepo, ledger, WithdrawAuthorization(t), coin.AuthorizeAmount(t), reply,
                   coin.endpoint, t.attributes.obj.amount, now);
  }

  /**
   * Starts a withdrawal: the transaction is stored, then exactly one coin
   * withdraw hold is placed; the signed transaction is returned when the
   * hold succeeds, the classified ledger error otherwise.
   */
  method Start(params: StartParams, now: Time, txRepo: TransactionRepository, actionRepo: ActionRepository,
               ledger: LedgerLog, coin: CoinAccountRepo.PecorinoRepository, reply: Result<Hold>)
    returns (r: Result<Token>)
    requires txRepo.Valid() && actionRepo.Valid()
    modifies txRepo, actionRepo, ledger
    ensures txRepo.Valid() && actionRepo.Valid()
    ensures txRepo.transactions == old(txRepo.transactions) + [Began(params, old(txRepo.nextId))]
    ensures actionRepo.actions == old(actionRepo.actions)
              + [WithdrawOutcome(Began(params, old(txRepo.nextId)), old(actionRepo.nextId), coin, reply, now)]
    ensures ledger.requests == old(ledger.requests) + [coin.AuthorizeAmount(Began(params, old(txRepo.nextId)))]
    ensures reply.Ok? ==> r == Ok(Sign(Began(params, old(txRepo.nextId))))
    ensures reply.Err? ==> r == Err(HandlePecorinoError(reply.error))
  {
    var t := txRepo.Start(StartParamsOf(params));
    var withdrawn := AuthorizeWithdrawCoinAccount(t, now, actionRepo, ledger, coin, reply);
    if withdrawn.Err? {
      return Err(withdrawn.error);
    }
    r := Ok(Sign(t));
  }

  /** Where a withdrawal's money goes: an anonymous location named after the recipient. */
  function Destination(t: Transaction): (l: Location)
    ensures l.typeOf == Anonymous && l.name == Some(t.attributes.recipient.name)
    ensures l.accountType.None? && l.accountNumber.None?
  {
    Location(Anonymous, None, None, Some(t.attributes.recipient.name))
  }

  // ---- point incentive ------------------------------------------------------------

  predicate IsPointAccount(o: OwnershipInfo) {
    o.typeOfGood.accountType == Some(Point)
  }

  /** A point account the agent `agentId` owns at `now`. */
  predicate IsAgentPointAccount(o: OwnershipInfo, agentId: string, now: Time) {
    o.typeOfGood.typeOf == AccountGood && o.ownedBy.id == Some(agentId) && OwnedAt(o, now) && IsPointAccount(o)
  }

  /** Picking the point accounts from the search results picks each stored point account of the agent. */
  lemma PointAccountsCount(infos: seq<OwnershipInfo>, found: seq<OwnershipInfo>, agentId: string, now: Time)
    requires multiset(found) == multiset(Filter(infos, (o: OwnershipInfo) =>
               OwnershipInfoRepo.MatchesSearch(o, OwnershipInfoRepo.SearchConditions(AccountGood, None, Some(agentId), Some(now)))))
    ensures multiset(Filter(found, IsPointAccount))
            == multiset(Filter(infos, (o: OwnershipInfo) => IsAgentPointAccount(o, agentId, now)))
  {
    var c := OwnershipInfoRepo.SearchConditions(AccountGood, None, Some(agentId), Some(now));
    var matches := (o: OwnershipInfo) => OwnershipInfoRepo.MatchesSearch(o, c);
    var agentPoint := (o: OwnershipInfo) => IsAgentPointAccount(o, agentId, now);
    forall x ensures multiset(Filter(found, IsPointAccount))[x] == multiset(Filter(infos, agentPoint))[x] {
      FilterCount(found, IsPointAccount, x);
      FilterCount(infos, matches, x);
      FilterCount(infos, agentPoint, x);
    }
  }

  /**
   * The point accounts the agent `agentId` owns at `now`, earliest owned
   * first: each stored record that is one, as often as it is stored.
   */
  function PointAccounts(ownership: OwnershipInfoRepository, agentId: string, now: Time): (r: seq<OwnershipInfo>)
    reads ownership
    ensures forall o :: o in r <==> o in ownership.infos && IsAgentPointAccount(o, agentId, now)
    ensures SortedBy(r, OwnedFromKey)
    ensures multiset(r) == multiset(Filter(ownership.infos, (o: OwnershipInfo) => IsAgentPointAccount(o, agentId, now)))
  {
    var c := OwnershipInfoRepo.SearchConditions(AccountGood, None, Some(agentId), Some(now));
    var found := ownership.Search(c);
    var r := Filter(found, IsPointAccount);
    FilterSorted(found, IsPointAccount, OwnedFromKey);
    PointAccountsCount(ownership.infos, found, agentId, now);
    r
  }

  /** The incentive deposit of one point into `account`, from the recipient to the agent, open for one minute. */
  function IncentiveDeposit(t: Transaction, account: OwnershipInfo, now: Time): (d: DepositRequest)
    ensures d.amount == INCENTIVE && d.accountType == Some(Point) && d.expires == now + MINUTE
    ensures d.agent == t.attributes.recipient && d.recipient == t.attributes.agent
    ensures d.toAccountNumber == account.typeOfGood.accountNumber
  {
    DepositRequest(now + MINUTE, t.attributes.recipient, t.attributes.agent, INCENTIVE, Some(INCENTIVE_NOTES),
                   account.typeOfGood.accountNumber, Some(Point))
  }

  /**
   * The requests the incentive sends: none when the agent has no id or no
   * point account; otherwise a deposit to the first point account, and its
   * confirmation when the deposit was opened.
   */
  function IncentiveRequests(t: Transaction, accounts: seq<OwnershipInfo>, pointEndpoint: string,
                             startReply: Result<Hold>, now: Time): (r: seq<Request>)
    ensures t.attributes.agent.id.None? || accounts == [] ==> r == []
    ensures t.attributes.agent.id.Some? && accounts != [] ==>
              1 <= |r| <= 2 && r[0] == Request(pointEndpoint, StartDeposit(IncentiveDeposit(t, accounts[0], now)))
              && (|r| == 2 <==> startReply.Ok?)
              && (startReply.Ok? ==> r[1] == Request(pointEndpoint, Pecorino.Confirm(DepositService, startReply.value.id)))
  {
    if t.attributes.agent.id.None? || accounts == [] then []
    else
      [Request(pointEndpoint, StartDeposit(IncentiveDeposit(t, accounts[0], now)))]
      + (if startReply.Ok? then [Request(pointEndpoint, Pecorino.Confirm(DepositService, startReply.value.id))] else [])
  }

  /** Sends the incentive requests for the point accounts `accounts` the agent owns. */
  method SendIncentive(t: Transaction, accounts: seq<OwnershipInfo>, now: Time, pointService: LedgerLog,
                       pointEndpoint: string, startReply: Result<Hold>, confirmReply: Outcome)
    requires t.attributes.agent.id.Some?
    modifies pointService
    ensures pointService.requests == old(pointService.requests) + IncentiveRequests(t, accounts, pointEndpoint, startReply, now)
  {
    if |accounts| != 0 {
      var request := Request(pointEndpoint, StartDeposit(IncentiveDeposit(t, accounts[0], now)));
      var deposit := pointService.Open(request, startReply);
      if deposit.Ok? {
        var confirmation := Request(pointEndpoint, Pecorino.Confirm(DepositService, deposit.value.id));
        var _ := pointService.Send(confirmation, confirmReply);
        assert IncentiveRequests(t, accounts, pointEndpoint, startReply, now) == [request, confirmation];
      } else {
        assert IncentiveRequests(t, accounts, pointEndpoint, startReply, now) == [request];
      }
    }
  }

  /**
   * Deposits the incentive when the agent has an id and owns a point
   * account. Every failure is swallowed: the caller goes on either way.
   */
  method DepositIncentive(t: Transaction, now: Time, ownership: OwnershipInfoRepository, pointService: LedgerLog,
                          pointEndpoint: string, startReply: Result<Hold>, confirmReply: Outcome)
    modifies pointService
    ensures pointService.requests == old(pointService.requests)
              + IncentiveRequests(t, if t.attributes.agent.id.Some? then PointAccounts(ownership, t.attributes.agent.id.value, now) else [],
                                  pointEndpoint, startReply, now)
  {
    if t.attributes.agent.id.Some? {
      var accounts := PointAccounts(ownership, t.attributes.agent.id.value, now);
      SendIncentive(t, accounts, now, pointService, pointEndpoint, startReply, confirmReply);
    }
  }

  /**
   * Confirms the withdrawal the token carries: an invalid or expired token,
   * or a transaction the store does not have, fails with nothing changed;
   * otherwise the incentive is attempted and the stored transaction is
   * confirmed, whatever became of the incentive.
   */
  method Confirm(token: Token, confirmDate: Time, now: Time, txRepo: TransactionRepository, actionRepo: ActionRepository,
                 ownership: OwnershipInfoRepository, pointService: LedgerLog, pointEndpoint: string,
                 startReply: Result<Hold>, confirmReply: Outcome)
    returns (r: Outcome)
    requires txRepo.Valid()
    modifies txRepo, pointService
    ensures txRepo.Valid()
    ensures Verify(token, now).Err? || old(txRepo.FindById(WithdrawCoin, Verify(token, now).value.id)).Err? ==>
              txRepo.transactions == old(txRepo.transactions) && pointService.requests == old(pointService.requests)
    ensures Verify(token, now).Err? ==> r == Fail(Verify(token, now).error)
    ensures Verify(token, now).Ok? && old(txRepo.FindById(WithdrawCoin, Verify(token, now).value.id)).Err? ==>
              r == Fail(NotFound("transaction"))
    ensures Verify(token, now).Ok? && old(txRepo.FindById(WithdrawCoin, Verify(token, now).value.id)).Ok? ==>
              var t := old(txRepo.FindById(WithdrawCoin, Verify(token, now).value.id)).value;
              ConfirmedAs(t, ConfirmedObject(t, actionRepo.FindAuthorizeByTransactionId(t.id), confirmDate),
                          PotentialActions(Some(MoneyTransferFor(t, Destination(t)))),
                          old(txRepo.transactions), txRepo.transactions, r)
              && pointService.requests == old(pointService.requests)
                   + IncentiveRequests(t, if t.attributes.agent.id.Some? then PointAccounts(ownership, t.attributes.agent.id.value, now) else [],
                                       pointEndpoint, startReply, now)
  {
    var verified := Verify(token, now);
    if verified.Err? {
      return Fail(verified.error);
    }
    var found := txRepo.FindById(WithdrawCoin, verified.value.id);
    if found.Err? {
      return Fail(found.error);
    }
    DepositIncentive(found.value, now, ownership, pointService, pointEndpoint, startReply, confirmReply);
    r := ConfirmWith(found.value, Destination(found.value), confirmDate, txRepo, actionRepo);
  }

  /** Exports the tasks of one withdrawal in status `status` that is pending export. */
  method ExportTasks(status: TransactionStatus, now: Time, txRepo: TransactionRepository, taskRepo: TaskRepository)
    returns (r: Outcome)
    requires txRepo.Valid() && taskRepo.Valid()
    modifies txRepo, taskRepo
    ensures txRepo.Valid() && taskRepo.Valid()
    ensures ExportedOne(WithdrawCoin, status, now, old(taskRepo.nextId), old(txRepo.transactions), txRepo.transactions,
                        old(taskRepo.tasks), taskRepo.tasks, r)
  {
    r := TransactionShared.ExportTasks(WithdrawCoin, status, now, txRepo, taskRepo);
  }

  /** Stores the tasks the withdrawal `id` calls for. */
  method ExportTasksById(id: nat, now: Time, txRepo: TransactionRepository, taskRepo: TaskRepository)
    returns (r: Result<seq<Task>>)
    requires txRepo.Valid() && taskRepo.Valid()
    modifies taskRepo
    ensures taskRepo.Valid()
    ensures ExportedById(txRepo.FindById(WithdrawCoin, id), now, old(taskRepo.nextId), old(taskRepo.tasks), taskRepo.tasks, r)
  {
    r := TransactionShared.ExportTasksById(WithdrawCoin, id, now, txRepo, taskRepo);
  }
}
