/**
 * The order store: orders are created once per order number, change
 * status, are found by number or by inquiry key, and are searched by an
 * order-date range plus optional list filters, where a single value given
 * for a filter stands for the one-element list.
 */
module OrderRepo {
  import opened Wrappers
  import opened Factory
  import opened Seqs

  datatype OrderStatus =
    | OrderCancelled
    | OrderDelivered
    | OrderInTransit
    | OrderPaymentDue
    | OrderPickupAvailable
    | OrderProblem
    | OrderProcessing
    | OrderReturned

  /** What a customer quotes to look an order up. */
  datatype OrderInquiryKey = OrderInquiryKey(theaterCode: string, confirmationNumber: int, telephone: string)

  datatype Order = Order(
    orderNumber: string,
    orderStatus: OrderStatus,
    orderDate: Time,
    sellerId: Option<string>,
    customerMembershipNumber: Option<string>,
    confirmationNumber: Option<int>,
    /** the identifiers of the events the accepted offers reserve */
    reservedEventIdentifiers: seq<string>,
    orderInquiryKey: OrderInquiryKey)

  /**
   * A search: the order-date range is required; each list filter applies
   * only when given, and a single value, when given, replaces its list.
   */
  datatype SearchConditions = SearchConditions(
    orderDateFrom: Time,
    orderDateThrough: Time,
    sellerId: Option<string>,
    sellerIds: Option<seq<string>>,
    customerMembershipNumber: Option<string>,
    customerMembershipNumbers: Option<seq<string>>,
    orderNumber: Option<string>,
    orderNumbers: Option<seq<string>>,
    orderStatus: Option<OrderStatus>,
    orderStatuses: Option<seq<OrderStatus>>,
    confirmationNumbers: Option<seq<int>>,
    reservedEventIdentifiers: Option<seq<string>>)

  /** The list a filter uses: the single value as a one-element list when given, else the list given, if any. */
  function Effective<T>(single: Option<T>, list: Option<seq<T>>): (r: Option<seq<T>>)
    ensures single.Some? ==> r == Some([single.value])
    ensures single.None? ==> r == list
  {
    if single.Some? then Some([single.value]) else list
  }

  /** The conditions with every single value moved into its list, as the search rewrites them. */
  function Normalized(c: SearchConditions): (n: SearchConditions)
    ensures n.sellerIds == Effective(c.sellerId, c.sellerIds)
    ensures n.customerMembershipNumbers == Effective(c.customerMembershipNumber, c.customerMembershipNumbers)
    ensures n.orderNumbers == Effective(c.orderNumber, c.orderNumbers)
    ensures n.orderStatuses == Effective(c.orderStatus, c.orderStatuses)
    ensures n.orderDateFrom == c.orderDateFrom && n.orderDateThrough == c.orderDateThrough
    ensures n.confirmationNumbers == c.confirmationNumbers && n.reservedEventIdentifiers == c.reservedEventIdentifiers
  {
    c.(sellerIds := Effective(c.sellerId, c.sellerIds),
       customerMembershipNumbers := Effective(c.customerMembershipNumber, c.customerMembershipNumbers),
       orderNumbers := Effective(c.orderNumber, c.orderNumbers),
       orderStatuses := Effective(c.orderStatus, c.orderStatuses))
  }

  /** A field that must exist and lie in the list, when a list is given. */
  predicate PresentIn<T(==)>(list: Option<seq<T>>, value: Option<T>) {
    list.Some? ==> value.Some? && value.value in list.value
  }

  /** Whether an order meets the conditions once their single values are moved into the lists. */
  predicate MatchesNormalized(o: Order, n: SearchConditions) {
    && n.orderDateFrom <= o.orderDate <= n.orderDateThrough
    && PresentIn(n.sellerIds, o.sellerId)
    && PresentIn(n.customerMembershipNumbers, o.customerMembershipNumber)
    && (n.orderNumbers.Some? ==> o.orderNumber in n.orderNumbers.value)
    && (n.orderStatuses.Some? ==> o.orderStatus in n.orderStatuses.value)
    && PresentIn(n.confirmationNumbers, o.confirmationNumber)
    && (n.reservedEventIdentifiers.Some? ==>
          exists e :: e in o.reservedEventIdentifiers && e in n.reservedEventIdentifiers.value)
  }

  predicate MatchesSearch(o: Order, c: SearchConditions) {
    MatchesNormalized(o, Normalized(c))
  }

  function OrderDateKey(o: Order): int { o.orderDate }

  predicate HasOrderNumber(o: Order, orderNumber: string) {
    o.orderNumber == orderNumber
  }

  predicate MatchesInquiryKey(o: Order, key: OrderInquiryKey) {
    && o.orderInquiryKey.theaterCode == key.theaterCode
    && o.orderInquiryKey.confirmationNumber == key.confirmationNumber
    && o.orderInquiryKey.telephone == key.telephone
  }

  ghost predicate UniqueOrderNumbers(orders: seq<Order>) {
    forall i, j :: 0 <= i < j < |orders| ==> orders[i].orderNumber != orders[j].orderNumber
  }

  /** The store after creating `order` unless an order with its number exists already. */
  function CreatedIfAbsent(orders: seq<Order>, order: Order): (r: seq<Order>)
    ensures (exists i :: 0 <= i < |orders| && HasOrderNumber(orders[i], order.orderNumber)) ==> r == orders
    ensures (forall i :: 0 <= i < |orders| ==> !HasOrderNumber(orders[i], order.orderNumber)) ==> r == orders + [order]
  {
    if FirstIndex(orders, (o: Order) => HasOrderNumber(o, order.orderNumber)).Some? then orders else orders + [order]
  }

  /** Creating an order is idempotent, and order numbers stay unique. */
  lemma CreateIfNotExistIdempotent(orders: seq<Order>, order: Order)
    ensures CreatedIfAbsent(CreatedIfAbsent(orders, order), order) == CreatedIfAbsent(orders, order)
    ensures UniqueOrderNumbers(orders) ==> UniqueOrderNumbers(CreatedIfAbsent(orders, order))
  {
    var r := CreatedIfAbsent(orders, order);
    if forall i :: 0 <= i < |orders| ==> !HasOrderNumber(orders[i], order.orderNumber) {
      assert HasOrderNumber(r[|orders|], order.orderNumber);
    }
  }

  /** A single filter value and the one-element list holding it select the same orders. */
  lemma SingularMeansOneElementList(o: Order, c: SearchConditions, seller: string)
    ensures MatchesSearch(o, c.(sellerId := Some(seller))) <==> MatchesSearch(o, c.(sellerId := None, sellerIds := Some([seller])))
    ensures MatchesSearch(o, c.(sellerId := Some(seller))) ==> o.sellerId == Some(seller)
  {
  }

  /** A list given empty matches no order at all. */
  lemma EmptyListMatchesNothing(o: Order, c: SearchConditions)
    requires c.orderNumber.None? && c.orderNumbers == Some([])
    ensures !MatchesSearch(o, c)
  {
  }

  class OrderRepository {
    var orders: seq<Order>

    ghost predicate Valid()
      reads this
    {
      UniqueOrderNumbers(orders)
    }

    constructor ()
      ensures Valid() && orders == []
    {
      orders := [];
    }

    /** The order quoted by `key`: theater code, confirmation number and telephone all match. */
    function FindByOrderInquiryKey(key: OrderInquiryKey): (r: Result<Order>)
      reads this
      ensures r.Err? <==> forall i :: 0 <= i < |orders| ==> !MatchesInquiryKey(orders[i], key)
      ensures r.Err? ==> r.error == NotFound("order")
      ensures r.Ok? ==> r.value in orders && MatchesInquiryKey(r.value, key)
    {
      match FirstIndex(orders, (o: Order) => MatchesInquiryKey(o, key))
      case None => Err(NotFound("order"))
      case Some(k) => Ok(orders[k])
    }

    /** Creates `order` unless an order with its number exists; an existing one is left as it is. */
    method CreateIfNotExist(order: Order)
      requires Valid()
      modifies this
      ensures Valid()
      ensures orders == CreatedIfAbsent(old(orders), order)
    {
      CreateIfNotExistIdempotent(orders, order);
      var k := FirstIndex(orders, (o: Order) => HasOrderNumber(o, order.orderNumber));
      if k.None? {
        orders := orders + [order];
      }
    }

    /** Sets the status of the order `orderNumber`, or fails NotFound changing nothing. */
    method ChangeStatus(orderNumber: string, orderStatus: OrderStatus) returns (r: Outcome)
      requires Valid()
      modifies this
      ensures Valid()
      ensures r.Fail? <==> forall i :: 0 <= i < |old(orders)| ==> !HasOrderNumber(old(orders)[i], orderNumber)
      ensures r.Fail? ==> r.error == NotFound("order") && orders == old(orders)
      ensures r.Pass? ==>
                exists k: nat :: k < |old(orders)| && HasOrderNumber(old(orders)[k], orderNumber)
                  && orders == old(orders)[k := old(orders)[k].(orderStatus := orderStatus)]
    {
      var k := FirstIndex(orders, (o: Order) => HasOrderNumber(o, orderNumber));
      if k.None? {
        r := Fail(NotFound("order"));
      } else {
        orders := orders[k.value := orders[k.value].(orderStatus := orderStatus)];
        r := Pass;
      }
    }

    /** The order numbered `orderNumber`, or NotFound. */
    function FindByOrderNumber(orderNumber: string): (r: Result<Order>)
      reads this
      ensures r.Err? <==> forall i :: 0 <= i < |orders| ==> !HasOrderNumber(orders[i], orderNumber)
      ensures r.Err? ==> r.error == NotFound("order")
      ensures r.Ok? ==> r.value in orders && r.value.orderNumber == orderNumber
    {
      match FirstIndex(orders, (o: Order) => HasOrderNumber(o, orderNumber))
      case None => Err(NotFound("order"))
      case Some(k) => Ok(orders[k])
    }

    /** The orders meeting the conditions, earliest order date first; the store is only read. */
    function Search(c: SearchConditions): (r: seq<Order>)
      reads this
      ensures forall o :: o in r <==> o in orders && MatchesSearch(o, c)
      ensures forall o :: o in r ==> c.orderDateFrom <= o.orderDate <= c.orderDateThrough
      ensures SortedBy(r, OrderDateKey)
      ensures multiset(r) == multiset(Filter(orders, (o: Order) => MatchesSearch(o, c)))
    {
      var found := Filter(orders, (o: Order) => MatchesSearch(o, c));
      SortByMembers(found, OrderDateKey);
      SortBy(found, OrderDateKey)
    }
  }

  /** After a status change the order is found by its number with the new status. */
  lemma ChangedStatusIsFound(orders: seq<Order>, k: nat, orderStatus: OrderStatus)
    requires UniqueOrderNumbers(orders) && k < |orders|
    ensures UniqueOrderNumbers(orders[k := orders[k].(orderStatus := orderStatus)])
    ensures FirstIndex(orders[k := orders[k].(orderStatus := orderStatus)],
                       (o: Order) => HasOrderNumber(o, orders[k].orderNumber)) == Some(k)
  {
    var s := orders[k := orders[k].(orderStatus := orderStatus)];
    var p := (o: Order) => HasOrderNumber(o, orders[k].orderNumber);
    assert p(s[k]);
    assert forall j :: 0 <= j < k ==> !p(s[j]) by {
      forall j | 0 <= j < k ensures !p(s[j]) {
        assert s[j] == orders[j];
      }
    }
  }
}
