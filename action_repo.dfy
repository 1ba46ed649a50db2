/**
 * The action ledger: one record per step of a saga (an authorization hold
 * or a money transfer). Records are started, then completed, canceled or
 * given up. A transition selects its record by type and id only, whatever
 * status the record is in. Queries filter, sort and limit the records.
 */
module ActionRepo {
  import opened Wrappers
  import opened Factory
  import opened Seqs

  /** The record is the action of type `typeOf` with id `id`. */
  predicate Matches(a: Action, typeOf: ActionType, id: nat) {
    a.attributes.TypeOf() == typeOf && a.id == id
  }

  /** Index `k` holds the record of type `typeOf` with id `id`. */
  predicate IsMatchAt(actions: seq<Action>, typeOf: ActionType, id: nat, k: nat) {
    k < |actions| && Matches(actions[k], typeOf, id)
  }

  /** The record after `complete`: completed now with `result`; nothing else changes. */
  function CompletedAction(a: Action, result: ActionResult, now: Time): (r: Action)
    ensures r.id == a.id && r.attributes == a.attributes && r.startDate == a.startDate && r.error == a.error
    ensures r.actionStatus == CompletedActionStatus && r.result == Some(result) && r.endDate == Some(now)
  {
    a.(actionStatus := CompletedActionStatus, result := Some(result), endDate := Some(now))
  }

  /** The record after `cancel`: only the status changes. */
  function CanceledAction(a: Action): (r: Action)
    ensures r.actionStatus == CanceledActionStatus && r.(actionStatus := a.actionStatus) == a
  {
    a.(actionStatus := CanceledActionStatus)
  }

  /** The record after `giveUp`: failed now with `error`; nothing else changes. */
  function FailedAction(a: Action, error: Error, now: Time): (r: Action)
    ensures r.id == a.id && r.attributes == a.attributes && r.startDate == a.startDate && r.result == a.result
    ensures r.actionStatus == FailedActionStatus && r.error == Some(error) && r.endDate == Some(now)
  {
    a.(actionStatus := FailedActionStatus, error := Some(error), endDate := Some(now))
  }

  /** The record `start` creates. */
  function StartedAction(id: nat, attributes: ActionAttributes, now: Time): (r: Action)
    ensures r.id == id && r.attributes == attributes && r.actionStatus == ActiveActionStatus
    ensures r.startDate == now && r.endDate.None? && r.error.None?
    ensures r.result == attributes.InitialResult()
  {
    Action(id, attributes, ActiveActionStatus, now, None, attributes.InitialResult(), None)
  }

  /** Ids are distinct, so at most one index holds the record of a given type and id. */
  lemma MatchUnique(actions: seq<Action>, typeOf: ActionType, id: nat, k: nat, j: nat)
    requires forall i, i' :: 0 <= i < i' < |actions| ==> actions[i].id != actions[i'].id
    requires IsMatchAt(actions, typeOf, id, k) && IsMatchAt(actions, typeOf, id, j)
    ensures k == j
  {
  }

  function IdKey(a: Action): int { a.id }

  /**
   * The sort key for "latest end date first": ascending order of the key is
   * descending order of the end date, with the actions that have not ended
   * after all those that have.
   */
  function EndDateDescendingKey(a: Action): int {
    match a.endDate
    case Some(d) => 0 - d
    case None => 1
  }

  /** Ascending order of the key is latest-end-date-first, with the actions not ended at the end. */
  lemma EndDateDescendingOrder(r: seq<Action>)
    requires SortedBy(r, EndDateDescendingKey)
    ensures forall i, j :: 0 <= i < j < |r| && r[j].endDate.Some? ==>
              r[i].endDate.Some? && r[i].endDate.value >= r[j].endDate.value
  {
    forall i, j | 0 <= i < j < |r| && r[j].endDate.Some?
      ensures r[i].endDate.Some? && r[i].endDate.value >= r[j].endDate.value
    {
      assert EndDateDescendingKey(r[i]) <= EndDateDescendingKey(r[j]);
    }
  }

  /** A location that is the coin account numbered `accountNumber`. */
  predicate IsCoinAccount(l: Location, accountNumber: string) {
    l.typeOf == Account && l.accountType == Some(Coin) && l.accountNumber == Some(accountNumber)
  }

  /** A money transfer from or to the coin account numbered `accountNumber`. */
  predicate MovesCoinAccount(a: Action, accountNumber: string) {
    a.attributes.MoneyTransferAttributes?
    && (IsCoinAccount(a.attributes.fromLocation, accountNumber) || IsCoinAccount(a.attributes.toLocation, accountNumber))
  }

  const DEFAULT_MONEY_TRANSFER_LIMIT: int := 100

  /**
   * The conditions of a general search. An empty list stands for a list
   * filter that is not given; the start-date range is always applied,
   * both ends inclusive.
   */
  datatype SearchConditions = SearchConditions(
    typeOf: ActionType,
    actionStatuses: seq<ActionStatus>,
    startDateFrom: Time,
    startDateThrough: Time,
    purposeTypeOfs: seq<TransactionType>,
    fromLocationAccountNumbers: seq<string>,
    toLocationAccountNumbers: seq<string>,
    limit: int)

  /** The account number of an action's own source or destination; authorize actions have neither at the top level. */
  function FromAccountNumber(a: Action): Option<string> {
    if a.attributes.MoneyTransferAttributes? then a.attributes.fromLocation.accountNumber else None
  }

  function ToAccountNumber(a: Action): Option<string> {
    if a.attributes.MoneyTransferAttributes? then a.attributes.toLocation.accountNumber else None
  }

  /** A list filter passes when it is not given or the value is present and listed. */
  predicate ListFilter<T(==)>(allowed: seq<T>, value: Option<T>) {
    |allowed| == 0 || (value.Some? && value.value in allowed)
  }

  predicate MatchesSearch(a: Action, c: SearchConditions) {
    a.attributes.TypeOf() == c.typeOf
    && c.startDateFrom <= a.startDate <= c.startDateThrough
    && ListFilter(c.actionStatuses, Some(a.actionStatus))
    && ListFilter(c.purposeTypeOfs, Some(a.attributes.purpose.typeOf))
    && ListFilter(c.fromLocationAccountNumbers, FromAccountNumber(a))
    && ListFilter(c.toLocationAccountNumbers, ToAccountNumber(a))
  }

  /** What a limit cuts from the matching actions has ids no lower than what it keeps. */
  lemma CutKeepsLowestIds(actions: seq<Action>, c: SearchConditions, found: seq<Action>, r: seq<Action>)
    requires forall a :: a in actions && MatchesSearch(a, c) ==> a in found
    requires forall x, y :: x in found && x !in r && y in r ==> IdKey(y) <= IdKey(x)
    ensures forall a, b :: a in actions && MatchesSearch(a, c) && a !in r && b in r ==> b.id <= a.id
  {
  }

  class ActionRepository {
    var actions: seq<Action>
    var nextId: nat

    ghost predicate Valid()
      reads this
    {
      (forall i :: 0 <= i < |actions| ==> actions[i].id < nextId)
      && (forall i, j :: 0 <= i < j < |actions| ==> actions[i].id != actions[j].id)
    }

    constructor ()
      ensures Valid() && actions == [] && nextId == 0
    {
      actions := [];
      nextId := 0;
    }

    /** Records a new active action started now, under a fresh id. */
    method Start(attributes: ActionAttributes, now: Time) returns (a: Action)
      requires Valid()
      modifies this
      ensures Valid() && nextId == old(nextId) + 1
      ensures a == StartedAction(old(nextId), attributes, now)
      ensures actions == old(actions) + [a]
    {
      a := StartedAction(nextId, attributes, now);
      actions := actions + [a];
      nextId := nextId + 1;
    }

    /**
     * Applies `change` to the record of type `typeOf` with id `id`, or
     * fails NotFound, changing nothing, when there is no such record.
     */
    method Update(typeOf: ActionType, id: nat, change: Action -> Action) returns (r: Result<Action>)
      requires Valid()
      requires forall a :: change(a).id == a.id && change(a).attributes == a.attributes
      modifies this
      ensures Valid() && nextId == old(nextId)
      ensures r.Err? <==> forall i :: 0 <= i < |old(actions)| ==> !Matches(old(actions)[i], typeOf, id)
      ensures r.Err? ==> r.error == NotFound("action") && actions == old(actions)
      ensures r.Ok? ==> exists k: nat :: IsMatchAt(old(actions), typeOf, id, k)
                          && r.value == change(old(actions)[k]) && actions == old(actions)[k := r.value]
    {
      var k := FirstIndex(actions, (a: Action) => Matches(a, typeOf, id));
      if k.None? {
        r := Err(NotFound("action"));
      } else {
        ghost var before := actions;
        var updated := change(actions[k.value]);
        actions := actions[k.value := updated];
        r := Ok(updated);
        assert IsMatchAt(before, typeOf, id, k.value);
      }
    }

    /** Marks the action completed now with `result`, whatever its current status. */
    method Complete(typeOf: ActionType, id: nat, result: ActionResult, now: Time) returns (r: Result<Action>)
      requires Valid()
      modifies this
      ensures Valid() && nextId == old(nextId)
      ensures r.Err? <==> forall i :: 0 <= i < |old(actions)| ==> !Matches(old(actions)[i], typeOf, id)
      ensures r.Err? ==> r.error == NotFound("action") && actions == old(actions)
      ensures r.Ok? ==> exists k: nat :: IsMatchAt(old(actions), typeOf, id, k)
                          && r.value == CompletedAction(old(actions)[k], result, now)
                          && actions == old(actions)[k := r.value]
    {
      r := Update(typeOf, id, (a: Action) => CompletedAction(a, result, now));
    }

    /** Marks the action canceled, whatever its current status; the end date and the result are left as they were. */
    method Cancel(typeOf: ActionType, id: nat) returns (r: Result<Action>)
      requires Valid()
      modifies this
      ensures Valid() && nextId == old(nextId)
      ensures r.Err? <==> forall i :: 0 <= i < |old(actions)| ==> !Matches(old(actions)[i], typeOf, id)
      ensures r.Err? ==> r.error == NotFound("action") && actions == old(actions)
      ensures r.Ok? ==> exists k: nat :: IsMatchAt(old(actions), typeOf, id, k)
                          && r.value == CanceledAction(old(actions)[k])
                          && actions == old(actions)[k := r.value]
    {
      r := Update(typeOf, id, CanceledAction);
    }

    /** Marks the action failed now with `error`, whatever its current status. */
    method GiveUp(typeOf: ActionType, id: nat, error: Error, now: Time) returns (r: Result<Action>)
      requires Valid()
      modifies this
      ensures Valid() && nextId == old(nextId)
      ensures r.Err? <==> forall i :: 0 <= i < |old(actions)| ==> !Matches(old(actions)[i], typeOf, id)
      ensures r.Err? ==> r.error == NotFound("action") && actions == old(actions)
      ensures r.Ok? ==> exists k: nat :: IsMatchAt(old(actions), typeOf, id, k)
                          && r.value == FailedAction(old(actions)[k], error, now)
                          && actions == old(actions)[k := r.value]
    {
      r := Update(typeOf, id, (a: Action) => FailedAction(a, error, now));
    }

    /** The action of type `typeOf` with id `id`, or NotFound. */
    function FindById(typeOf: ActionType, id: nat): (r: Result<Action>)
      reads this
      ensures r.Err? <==> forall i :: 0 <= i < |actions| ==> !Matches(actions[i], typeOf, id)
      ensures r.Err? ==> r.error == NotFound("action")
      ensures r.Ok? ==> r.value in actions && Matches(r.value, typeOf, id)
    {
      match FirstIndex(actions, (a: Action) => Matches(a, typeOf, id))
      case None => Err(NotFound("action"))
      case Some(k) => Ok(actions[k])
    }

    /** Every authorize action whose purpose is the transaction `transactionId`, in any status, in storage order. */
    function FindAuthorizeByTransactionId(transactionId: nat): (r: seq<Action>)
      reads this
      ensures forall a :: a in r <==> a in actions && a.attributes.AuthorizeAttributes? && a.attributes.purpose.id == transactionId
      ensures multiset(r) <= multiset(actions)
    {
      Filter(actions, (a: Action) => a.attributes.AuthorizeAttributes? && a.attributes.purpose.id == transactionId)
    }

    /**
     * The money transfers from or to the coin account `accountNumber`,
     * latest end date first (those not ended last), at most `limit` of
     * them (100 when no limit is given).
     */
    function SearchMoneyTransferActions(accountNumber: string, limit: Option<int>): (r: seq<Action>)
      reads this
      ensures forall a :: a in r ==> a in actions && MovesCoinAccount(a, accountNumber)
      ensures forall i, j :: 0 <= i < j < |r| && r[j].endDate.Some? ==>
                r[i].endDate.Some? && r[i].endDate.value >= r[j].endDate.value
      ensures |r| == LimitCount(if limit.Some? then limit.value else DEFAULT_MONEY_TRANSFER_LIMIT,
                                |Filter(actions, (a: Action) => MovesCoinAccount(a, accountNumber))|)
      ensures forall a, b :: a in actions && MovesCoinAccount(a, accountNumber) && a !in r && b in r ==>
                EndDateDescendingKey(b) <= EndDateDescendingKey(a)
      ensures multiset(r) <= multiset(Filter(actions, (a: Action) => MovesCoinAccount(a, accountNumber)))
    {
      var n := if limit.Some? then limit.value else DEFAULT_MONEY_TRANSFER_LIMIT;
      var found := Filter(actions, (a: Action) => MovesCoinAccount(a, accountNumber));
      var r := SortedLimit(found, EndDateDescendingKey, n);
      EndDateDescendingOrder(r);
      r
    }

    /**
     * The actions meeting every condition given, in ascending id order, at
     * most `limit` of them (a zero limit meaning no limit); when the limit
     * cuts, it keeps the lowest ids.
     */
    function Search(c: SearchConditions): (r: seq<Action>)
      reads this
      ensures forall a :: a in r ==> a in actions && MatchesSearch(a, c)
      ensures SortedBy(r, IdKey)
      ensures |r| == LimitCount(c.limit, |Filter(actions, (a: Action) => MatchesSearch(a, c))|)
      ensures c.limit == 0 ==> forall a :: a in actions && MatchesSearch(a, c) ==> a in r
      ensures forall a, b :: a in actions && MatchesSearch(a, c) && a !in r && b in r ==> b.id <= a.id
      ensures multiset(r) <= multiset(Filter(actions, (a: Action) => MatchesSearch(a, c)))
    {
      var found := Filter(actions, (a: Action) => MatchesSearch(a, c));
      var r := SortedLimit(found, IdKey, c.limit);
      CutKeepsLowestIds(actions, c, found, r);
      r
    }
  }
}
