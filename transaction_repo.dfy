/**
 * The transaction store, seen through the operations the coordinators use:
 * start, find by type and id, confirm an in-progress transaction, claim a
 * transaction for task export and mark its tasks exported.
 */
module TransactionRepo {
  import opened Wrappers
  import opened Factory
  import opened Seqs

  /**
   * The start parameters of every type but a withdrawal name a destination;
   * a withdrawal pays out to nobody in particular.
   */
  predicate WellTyped(p: StartParams) {
    p.typeOf != WithdrawCoin ==> p.obj.toLocation.Some?
  }

  predicate IsTransaction(t: Transaction, typeOf: TransactionType, id: nat) {
    t.attributes.typeOf == typeOf && t.id == id
  }

  class TransactionRepository {
    var transactions: seq<Transaction>
    var nextId: nat

    ghost predicate Valid()
      reads this
    {
      (forall i :: 0 <= i < |transactions| ==> transactions[i].id < nextId && WellTyped(transactions[i].attributes))
      && (forall i, j :: 0 <= i < j < |transactions| ==> transactions[i].id != transactions[j].id)
    }

    constructor ()
      ensures Valid() && transactions == [] && nextId == 0
    {
      transactions := [];
      nextId := 0;
    }

    /** Stores a new in-progress transaction under a fresh id. */
    method Start(params: StartParams) returns (t: Transaction)
      requires Valid() && WellTyped(params)
      modifies this
      ensures Valid() && nextId == old(nextId) + 1
      ensures t == Transaction(old(nextId), params, InProgress, None, Unexported)
      ensures transactions == old(transactions) + [t]
    {
      t := Transaction(nextId, params, InProgress, None, Unexported);
      transactions := transactions + [t];
      nextId := nextId + 1;
    }

    /** The transaction of type `typeOf` with id `id`, or NotFound. */
    function FindById(typeOf: TransactionType, id: nat): (r: Result<Transaction>)
      reads this
      requires Valid()
      ensures r.Err? <==> forall i :: 0 <= i < |transactions| ==> !IsTransaction(transactions[i], typeOf, id)
      ensures r.Err? ==> r.error == NotFound("transaction")
      ensures r.Ok? ==> r.value in transactions && IsTransaction(r.value, typeOf, id) && WellTyped(r.value.attributes)
    {
      match FirstIndex(transactions, (t: Transaction) => IsTransaction(t, typeOf, id))
      case None => Err(NotFound("transaction"))
      case Some(k) => Ok(transactions[k])
    }

    /**
     * Confirms the in-progress transaction of type `typeOf` with id `id`:
     * its object and potential actions are replaced and it becomes
     * confirmed. Fails NotFound, changing nothing, when there is no such
     * in-progress transaction.
     */
    method Confirm(typeOf: TransactionType, id: nat, obj: TransactionObject, potentialActions: PotentialActions)
      returns (r: Outcome)
      requires Valid()
      requires forall t :: t in transactions && IsTransaction(t, typeOf, id) ==> WellTyped(t.attributes.(obj := obj))
      modifies this
      ensures Valid() && nextId == old(nextId)
      ensures r.Fail? <==> forall i :: 0 <= i < |old(transactions)| ==>
                !(IsTransaction(old(transactions)[i], typeOf, id) && old(transactions)[i].status == InProgress)
      ensures r.Fail? ==> r.error == NotFound("transaction") && transactions == old(transactions)
      ensures r.Pass? ==>
                exists k: nat :: k < |old(transactions)| && IsTransaction(old(transactions)[k], typeOf, id)
                  && old(transactions)[k].status == InProgress
                  && transactions == old(transactions)[k := old(transactions)[k].(
                       status := Confirmed, attributes := old(transactions)[k].attributes.(obj := obj),
                       potentialActions := Some(potentialActions))]
    {
      var k := FirstIndex(transactions, (t: Transaction) => IsTransaction(t, typeOf, id) && t.status == InProgress);
      if k.None? {
        r := Fail(NotFound("transaction"));
      } else {
        var t := transactions[k.value];
        assert t in transactions;
        transactions := transactions[k.value := t.(status := Confirmed, attributes := t.attributes.(obj := obj),
                                                  potentialActions := Some(potentialActions))];
        r := Pass;
      }
    }

    /**
     * Claims for task export the first transaction of type `typeOf` in
     * status `status` whose tasks are not exported: it becomes exporting.
     * Yields nothing, changing nothing, when there is none.
     */
    method StartExportTasks(typeOf: TransactionType, status: TransactionStatus) returns (r: Option<Transaction>)
      requires Valid()
      modifies this
      ensures Valid() && nextId == old(nextId)
      ensures r.None? <==> forall i :: 0 <= i < |old(transactions)| ==> !ExportPending(old(transactions)[i], typeOf, status)
      ensures r.None? ==> transactions == old(transactions)
      ensures r.Some? ==>
                exists k: nat :: k < |old(transactions)| && ExportPending(old(transactions)[k], typeOf, status)
                  && (forall j :: 0 <= j < k ==> !ExportPending(old(transactions)[j], typeOf, status))
                  && r.value == old(transactions)[k].(tasksExportationStatus := Exporting)
                  && transactions == old(transactions)[k := r.value]
    {
      var k := FirstIndex(transactions, (t: Transaction) => ExportPending(t, typeOf, status));
      if k.None? {
        r := None;
      } else {
        var t := transactions[k.value].(tasksExportationStatus := Exporting);
        transactions := transactions[k.value := t];
        r := Some(t);
      }
    }

    /** Marks the tasks of transaction `id` exported; an unknown id changes nothing. */
    method SetTasksExportedById(id: nat)
      requires Valid()
      modifies this
      ensures Valid() && nextId == old(nextId) && |transactions| == |old(transactions)|
      ensures forall i :: 0 <= i < |transactions| ==>
                transactions[i] == if old(transactions)[i].id == id then old(transactions)[i].(tasksExportationStatus := Exported)
                                   else old(transactions)[i]
    {
      var k := FirstIndex(transactions, (t: Transaction) => t.id == id);
      if k.Some? {
        transactions := transactions[k.value := transactions[k.value].(tasksExportationStatus := Exported)];
      }
    }
  }

  predicate ExportPending(t: Transaction, typeOf: TransactionType, status: TransactionStatus) {
    t.attributes.typeOf == typeOf && t.status == status && t.tasksExportationStatus == Unexported
  }
}

/**
 * The bearer token a client holds between starting and confirming a
 * transaction: the signed transaction, valid until the transaction expires.
 */
module TransactionUtil {
  import opened Factory

  datatype Token =
    | Signed(payload: Transaction, expiresAt: Time)
      /** a string that is not a token this service signed */
    | Forged(text: string)

  const TOKEN_EXPIRED_ERROR: string := "TokenExpiredError"
  const JSON_WEB_TOKEN_ERROR: string := "JsonWebTokenError"

  function Sign(t: Transaction): (token: Token)
    ensures token.Signed? && token.payload == t
  {
    Signed(t, t.attributes.expires)
  }

  /** The transaction a token carries, or the token library's own error: expired, or not a token at all. */
  function Verify(token: Token, now: Time): (r: Result<Transaction>)
    ensures r.Ok? ==> token.Signed? && r.value == token.payload && now < token.expiresAt
    ensures token.Forged? ==> r == Err(TokenError(JSON_WEB_TOKEN_ERROR))
    ensures token.Signed? && token.expiresAt <= now ==> r == Err(TokenError(TOKEN_EXPIRED_ERROR))
  {
    match token
    case Forged(_) => Err(TokenError(JSON_WEB_TOKEN_ERROR))
    case Signed(payload, expiresAt) =>
      if now < expiresAt then Ok(payload) else Err(TokenError(TOKEN_EXPIRED_ERROR))
  }

  /** A token verifies to the transaction it was signed for until that transaction expires, and never after. */
  lemma VerifySign(t: Transaction, now: Time)
    ensures now < t.attributes.expires ==> Verify(Sign(t), now) == Ok(t)
    ensures t.attributes.expires <= now ==> Verify(Sign(t), now) == Err(TokenError(TOKEN_EXPIRED_ERROR))
  {
  }
}
