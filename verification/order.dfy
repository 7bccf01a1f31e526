/** The order service: orders with a daily queue number, their item rows,
    the cancel guard and the status updates the kitchen sends back. The
    clock is the `today` parameter (a day number) and order ids are
    supplied by the caller. */
module OrderService {
  import opened Wrappers

  /** An orders row; `day` is the date of created_at. */
  datatype Order = Order(
    queueNumber: int, customerName: string, tableNo: string, roomName: string,
    status: string, day: int, cancelReason: Option<string>)

  datatype OrderLine = OrderLine(menuName: string, quantity: int, preference: string)

  datatype CreateOrderRequest = CreateOrderRequest(
    customerName: string, tableNo: string, roomName: string, orders: seq<OrderLine>)

  /** An order_items row. */
  datatype StoredItem = StoredItem(orderId: string, menuName: string, quantity: int, preference: string)

  // ---------------------------------------------------------------------
  // Queue numbers
  // ---------------------------------------------------------------------

  /** The queue numbers already given out on `day`. */
  function QueuesOn(orders: map<string, Order>, day: int): set<int> {
    set id | id in orders && orders[id].day == day :: orders[id].queueNumber
  }

  lemma HasMember(s: set<int>)
    requires s != {}
    ensures exists y :: y in s
  {
    if forall y :: y !in s {
      assert false;
    }
  }

  ghost function Largest(s: set<int>): (m: int)
    requires s != {}
    ensures m in s && forall x :: x in s ==> x <= m
  {
    HasMember(s);
    var x :| x in s;
    if s == {x} then x
    else
      var rest := Largest(s - {x});
      assert forall y :: y in s ==> y == x || y in s - {x};
      if x < rest then rest else x
  }

  /** The highest queue number of the day plus one, or 1 on a new day. */
  ghost function NextQueueNumber(orders: map<string, Order>, today: int): (q: int)
    ensures forall n :: n in QueuesOn(orders, today) ==> n < q
    ensures QueuesOn(orders, today) == {} ==> q == 1
    ensures QueuesOn(orders, today) != {} ==> q - 1 in QueuesOn(orders, today)
  {
    var today' := QueuesOn(orders, today);
    if today' == {} then 1 else Largest(today') + 1
  }

  /** The next number is one past any bound that is itself a number of the day. */
  lemma NextQueueNumberAbove(orders: map<string, Order>, today: int, top: int)
    requires top in QueuesOn(orders, today)
    requires forall n :: n in QueuesOn(orders, today) ==> n <= top
    ensures NextQueueNumber(orders, today) == top + 1
  {
  }

  /** The greatest element of a set, found one element at a time. */
  method Greatest(s: set<int>) returns (top: Option<int>)
    ensures top.None? <==> s == {}
    ensures top.Some? ==> top.value in s && forall n :: n in s ==> n <= top.value
  {
    var rest := s;
    ghost var seen: set<int> := {};
    top := None;
    while rest != {}
      invariant rest + seen == s && rest !! seen
      invariant top.None? <==> seen == {}
      invariant top.Some? ==> top.value in seen && forall n :: n in seen ==> n <= top.value
      decreases |rest|
    {
      HasMember(rest);
      var n :| n in rest;
      if top.None? || top.value < n {
        top := Some(n);
      }
      rest, seen := rest - {n}, seen + {n};
    }
  }

  /** The day's next queue number, from the highest one given out so far
      (the query ordered by queue_number descending). */
  method FindNextQueueNumber(orders: map<string, Order>, today: int) returns (q: int)
    ensures q == NextQueueNumber(orders, today)
  {
    var top := Greatest(QueuesOn(orders, today));
    if top.None? {
      q := 1;
    } else {
      NextQueueNumberAbove(orders, today, top.value);
      q := top.value + 1;
    }
  }

  /** No two orders of the same day share a queue number. */
  predicate QueuesDistinctPerDay(orders: map<string, Order>) {
    forall a, b :: a in orders && b in orders && a != b && orders[a].day == orders[b].day
      ==> orders[a].queueNumber != orders[b].queueNumber
  }

  function NewOrder(req: CreateOrderRequest, queueNumber: int, today: int): Order {
    Order(queueNumber, req.customerName, req.tableNo, req.roomName, "receive", today, None)
  }

  /** The item rows of one order: one per requested line, in order. */
  function ItemsFor(orderId: string, lines: seq<OrderLine>): (r: seq<StoredItem>)
    ensures |r| == |lines|
    ensures forall k :: 0 <= k < |r| ==>
      r[k] == StoredItem(orderId, lines[k].menuName, lines[k].quantity, lines[k].preference)
  {
    seq(|lines|, k requires 0 <= k < |lines| =>
      StoredItem(orderId, lines[k].menuName, lines[k].quantity, lines[k].preference))
  }

  /** The item rows of `orderId`, in insertion order. */
  function ItemsOf(items: seq<StoredItem>, orderId: string): seq<StoredItem>
    decreases |items|
  {
    if items == [] then []
    else ItemsOf(items[..|items| - 1], orderId)
         + (if items[|items| - 1].orderId == orderId then [items[|items| - 1]] else [])
  }

  lemma {:induction false} ItemsOfAppend(a: seq<StoredItem>, b: seq<StoredItem>, orderId: string)
    ensures ItemsOf(a + b, orderId) == ItemsOf(a, orderId) + ItemsOf(b, orderId)
    decreases |b|
  {
    if b == [] {
      assert a + b == a;
    } else {
      var b' := b[..|b| - 1];
      assert (a + b)[..|a + b| - 1] == a + b';
      ItemsOfAppend(a, b', orderId);
    }
  }

  lemma {:induction false} ItemsOfOwn(orderId: string, lines: seq<OrderLine>)
    ensures ItemsOf(ItemsFor(orderId, lines), orderId) == ItemsFor(orderId, lines)
    decreases |lines|
  {
    if lines != [] {
      var init := lines[..|lines| - 1];
      assert ItemsFor(orderId, lines)[..|lines| - 1] == ItemsFor(orderId, init);
      ItemsOfOwn(orderId, init);
    }
  }

  /** The items stored for a new order are exactly its requested lines. */
  lemma NewOrderItems(items: seq<StoredItem>, orderId: string, lines: seq<OrderLine>)
    requires ItemsOf(items, orderId) == []
    ensures ItemsOf(items + ItemsFor(orderId, lines), orderId) == ItemsFor(orderId, lines)
  {
    ItemsOfAppend(items, ItemsFor(orderId, lines), orderId);
    ItemsOfOwn(orderId, lines);
  }

  datatype CreateError = QueueNumberTaken

  /** create_order as written: queue_number is declared unique over the whole
      table, so a number reused from an earlier day makes the commit fail. */
  ghost function CreateOrderOutcome(orders: map<string, Order>, orderId: string, req: CreateOrderRequest, today: int)
    : Result<(map<string, Order>, int), CreateError>
    requires orderId !in orders
  {
    var q := NextQueueNumber(orders, today);
    if exists id :: id in orders && orders[id].queueNumber == q then Failure(QueueNumberTaken)
    else Success((orders[orderId := NewOrder(req, q, today)], q))
  }

  /** What the unique column on queue_number demands of the table. */
  predicate QueuesUnique(orders: map<string, Order>) {
    forall a, b :: a in orders && b in orders && a != b ==> orders[a].queueNumber != orders[b].queueNumber
  }

  /** As written, an order is stored exactly when the day's next number is
      not in the table yet; it is then stored under that number, so the
      numbers in the table stay distinct. */
  lemma CreateOrderOutcomeSpec(orders: map<string, Order>, orderId: string, req: CreateOrderRequest, today: int)
    requires orderId !in orders
    ensures CreateOrderOutcome(orders, orderId, req, today).Success? <==>
      forall id :: id in orders ==> orders[id].queueNumber != NextQueueNumber(orders, today)
    ensures CreateOrderOutcome(orders, orderId, req, today).Success? ==>
      var (orders', q) := CreateOrderOutcome(orders, orderId, req, today).value;
      orders'.Keys == orders.Keys + {orderId} && orders'[orderId].queueNumber == q && orders'[orderId].day == today
      && forall id :: id in orders ==> orders'[id] == orders[id]
    ensures QueuesUnique(orders) && CreateOrderOutcome(orders, orderId, req, today).Success? ==>
      QueuesUnique(CreateOrderOutcome(orders, orderId, req, today).value.0)
  {
  }

  /** After one order on day 0, no order can be created on day 1: the day's
      first number is 1 again and that number is already in the table. */
  lemma SecondDayOrderRejected(req: CreateOrderRequest)
    ensures var orders := map["A" := NewOrder(req, 1, 0)];
      CreateOrderOutcome(orders, "B", req, 1) == Failure(QueueNumberTaken)
  {
    var orders := map["A" := NewOrder(req, 1, 0)];
    assert QueuesOn(orders, 1) == {};
    assert orders["A"].queueNumber == 1;
  }

  /** create_order with queue numbers unique per day, the numbering the
      daily reset calls for. */
  ghost function CreateOrderCorrected(orders: map<string, Order>, orderId: string, req: CreateOrderRequest, today: int)
    : (r: (map<string, Order>, int))
    requires orderId !in orders
    ensures r.0 == orders[orderId := NewOrder(req, r.1, today)]
    ensures forall id :: id in orders && orders[id].day == today ==> orders[id].queueNumber < r.1
  {
    var q := NextQueueNumber(orders, today);
    assert forall id :: id in orders && orders[id].day == today ==> orders[id].queueNumber in QueuesOn(orders, today);
    (orders[orderId := NewOrder(req, q, today)], q)
  }

  /** The corrected numbering keeps every day's queue numbers distinct, and
      numbers each day 1, 2, 3, ... when the day starts empty. */
  lemma CreateOrderCorrectedKeepsQueuesDistinct(orders: map<string, Order>, orderId: string, req: CreateOrderRequest, today: int)
    requires orderId !in orders && QueuesDistinctPerDay(orders)
    ensures QueuesDistinctPerDay(CreateOrderCorrected(orders, orderId, req, today).0)
    ensures QueuesOn(CreateOrderCorrected(orders, orderId, req, today).0, today)
         == QueuesOn(orders, today) + {CreateOrderCorrected(orders, orderId, req, today).1}
  {
    var (orders', q) := CreateOrderCorrected(orders, orderId, req, today);
    forall n | n in QueuesOn(orders', today)
      ensures n in QueuesOn(orders, today) + {q}
    {
      var id :| id in orders' && orders'[id].day == today && orders'[id].queueNumber == n;
      if id != orderId {
        assert orders[id].queueNumber in QueuesOn(orders, today);
      }
    }
    forall n | n in QueuesOn(orders, today) + {q}
      ensures n in QueuesOn(orders', today)
    {
      if n != q {
        var id :| id in orders && orders[id].day == today && orders[id].queueNumber == n;
        assert orders'[id].queueNumber in QueuesOn(orders', today);
      } else {
        assert orders'[orderId].queueNumber in QueuesOn(orders', today);
      }
    }
  }

  // ---------------------------------------------------------------------
  // Cancel and kitchen updates
  // ---------------------------------------------------------------------

  datatype CancelError = OrderNotFound | NotCancellable(status: string)

  /** cancel_order: only an order still at "receive" can be cancelled. */
  function Cancel(orders: map<string, Order>, orderId: string, reason: string): Result<map<string, Order>, CancelError> {
    if orderId !in orders then Failure(OrderNotFound)
    else if orders[orderId].status != "receive" then Failure(NotCancellable(orders[orderId].status))
    else Success(orders[orderId := orders[orderId].(status := "cancelled", cancelReason := Some(reason))])
  }

  /** A cancel succeeds exactly for a known order at "receive"; it then sets
      "cancelled" and the reason on that order alone. A second cancel of the
      same order is refused. */
  lemma CancelSpec(orders: map<string, Order>, orderId: string, reason: string)
    ensures Cancel(orders, orderId, reason).Success? <==> orderId in orders && orders[orderId].status == "receive"
    ensures Cancel(orders, orderId, reason).Success? ==>
      var o := Cancel(orders, orderId, reason).value;
      o.Keys == orders.Keys
      && o[orderId] == orders[orderId].(status := "cancelled", cancelReason := Some(reason))
      && (forall id :: id in orders && id != orderId ==> o[id] == orders[id])
      && Cancel(o, orderId, reason) == Failure(NotCancellable("cancelled"))
  {
  }

  /** update_order_status_from_kitchen: false is the not_found reply. */
  function KitchenUpdate(orders: map<string, Order>, orderId: string, status: string): (bool, map<string, Order>) {
    if orderId !in orders then (false, orders)
    else (true, orders[orderId := orders[orderId].(status := status)])
  }

  /** An unknown id changes nothing; a known one gets the status verbatim
      and nothing else changes; repeating the update changes nothing more. */
  lemma KitchenUpdateSpec(orders: map<string, Order>, orderId: string, status: string)
    ensures KitchenUpdate(orders, orderId, status).0 <==> orderId in orders
    ensures orderId !in orders ==> KitchenUpdate(orders, orderId, status).1 == orders
    ensures orderId in orders ==>
      var o := KitchenUpdate(orders, orderId, status).1;
      o.Keys == orders.Keys && o[orderId].status == status
      && o[orderId] == orders[orderId].(status := status)
      && (forall id :: id in orders && id != orderId ==> o[id] == orders[id])
    ensures var once := KitchenUpdate(orders, orderId, status).1;
      KitchenUpdate(once, orderId, status).1 == once
  {
  }

  // ---------------------------------------------------------------------
  // The service state
  // ---------------------------------------------------------------------

  class OrderBook {
    var orders: map<string, Order>
    var items: seq<StoredItem>

    constructor ()
      ensures orders == map[] && items == []
    {
      orders, items := map[], [];
    }

    /** POST /create_order as written: the order and its items are committed
        together, and a queue number already in the table makes the commit
        fail, storing neither (see SecondDayOrderRejected). The forward to
        the kitchen is a network call and is not part of the state. */
    method CreateOrder(orderId: string, req: CreateOrderRequest, today: int) returns (result: Result<int, CreateError>)
      requires orderId !in orders
      modifies this
      ensures CreateOrderOutcome(old(orders), orderId, req, today)
           == (if result.Failure? then Failure(result.error) else Success((orders, result.value)))
      ensures result.Success? ==> items == old(items) + ItemsFor(orderId, req.orders)
      ensures result.Failure? ==> orders == old(orders) && items == old(items)
    {
      var queueNumber := FindNextQueueNumber(orders, today);
      if exists id | id in orders :: orders[id].queueNumber == queueNumber {
        return Failure(QueueNumberTaken);  // the unique constraint fails the commit
      }
      orders := orders[orderId := Order(queueNumber, req.customerName, req.tableNo, req.roomName,
                                        "receive", today, None)];
      var i := 0;
      while i < |req.orders|
        invariant 0 <= i <= |req.orders|
        invariant items == old(items) + ItemsFor(orderId, req.orders[..i])
        invariant orders == old(orders)[orderId := NewOrder(req, queueNumber, today)]
      {
        var line := req.orders[i];
        items := items + [StoredItem(orderId, line.menuName, line.quantity, line.preference)];
        assert ItemsFor(orderId, req.orders[..i + 1]) == ItemsFor(orderId, req.orders[..i]) + [ItemsFor(orderId, req.orders)[i]];
        i := i + 1;
      }
      assert req.orders[..i] == req.orders;
      result := Success(queueNumber);
    }

    /** POST /cancel_order. */
    method CancelOrder(orderId: string, reason: string) returns (err: Option<CancelError>)
      modifies this
      ensures Cancel(old(orders), orderId, reason) == (if err.Some? then Failure(err.value) else Success(orders))
      ensures err.Some? ==> orders == old(orders)
      ensures items == old(items)
    {
      if orderId !in orders {
        return Some(OrderNotFound);
      }
      var order := orders[orderId];
      if order.status != "receive" {
        return Some(NotCancellable(order.status));
      }
      order := order.(status := "cancelled");
      order := order.(cancelReason := Some(reason));
      orders := orders[orderId := order];
      err := None;
    }

    /** POST /internal/update_status/{order_id}. */
    method UpdateFromKitchen(orderId: string, status: string) returns (updated: bool)
      modifies this
      ensures (updated, orders) == KitchenUpdate(old(orders), orderId, status)
      ensures items == old(items)
    {
      if orderId !in orders {
        return false;
      }
      orders := orders[orderId := orders[orderId].(status := status)];
      updated := true;
    }
  }
}
