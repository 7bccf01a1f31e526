/** The kitchen service: the open/closed switch, tickets received from the
    order service, and status changes that stamp the time each stage was
    first reached. Times are whole seconds supplied by the caller. */
module KitchenService {
  import opened Wrappers
  import opened Text

  const ActiveStatuses: set<string> := {"receive", "making", "deliver", "pending"}
  const FinishedStatuses: set<string> := {"done", "cancel", "habis"}
  const SecondsPerDay: int := 86400

  /** A kitchen_orders row; None is a NULL column. */
  datatype KitchenOrder = KitchenOrder(
    status: string, detail: string, customerName: string, tableNo: string, roomName: string,
    timeReceive: Option<int>, timeMaking: Option<int>, timeDeliver: Option<int>, timeDone: Option<int>,
    cancelReason: Option<string>, pendingReason: Option<string>)

  datatype OrderItem = OrderItem(menuName: string, quantity: int, preference: string)

  datatype KitchenOrderRequest = KitchenOrderRequest(
    orderId: string, orders: seq<OrderItem>, customerName: string, tableNo: string, roomName: string)

  // ---------------------------------------------------------------------
  // The ticket detail
  // ---------------------------------------------------------------------

  /** "{quantity}x {menu_name} ({preference})" */
  function DetailLine(item: OrderItem): string {
    IntToString(item.quantity) + "x " + item.menuName + " (" + item.preference + ")"
  }

  function DetailLines(items: seq<OrderItem>): (r: seq<string>)
    ensures |r| == |items| && forall k :: 0 <= k < |items| ==> r[k] == DetailLine(items[k])
  {
    seq(|items|, k requires 0 <= k < |items| => DetailLine(items[k]))
  }

  /** The detail column: the lines joined by newlines. */
  function Detail(items: seq<OrderItem>): string {
    Join(DetailLines(items), "\n")
  }

  predicate NoNewline(s: string) {
    forall i :: 0 <= i < |s| ==> s[i] != '\n'
  }

  lemma IntToStringNoNewline(n: int)
    ensures NoNewline(IntToString(n))
  {
    var d := NatToString(if n < 0 then -n else n);
    assert forall i :: 0 <= i < |d| ==> IsDigit(d[i]);
  }

  lemma DetailLineNoNewline(item: OrderItem)
    requires NoNewline(item.menuName) && NoNewline(item.preference)
    ensures NoNewline(DetailLine(item))
  {
    IntToStringNoNewline(item.quantity);
  }

  /** When no menu name or preference contains a newline, the detail splits
      back into exactly one line per ordered item, in order. */
  lemma DetailHasOneLinePerItem(items: seq<OrderItem>)
    requires |items| >= 1
    requires forall k :: 0 <= k < |items| ==> NoNewline(items[k].menuName) && NoNewline(items[k].preference)
    ensures Split(Detail(items), "\n") == DetailLines(items)
  {
    var lines := DetailLines(items);
    forall k | 0 <= k < |lines| ensures NoNewline(lines[k]) {
      DetailLineNoNewline(items[k]);
    }
    SplitJoin(lines, "\n");
  }

  // ---------------------------------------------------------------------
  // Status changes
  // ---------------------------------------------------------------------

  datatype StatusError = OrderNotFound | ReasonMissing

  /** The statuses that need a reason. */
  predicate NeedsReason(status: string) {
    status in {"cancel", "habis", "pending"}
  }

  /** update_status on one ticket: the stage time is stamped only if it is
      still empty, the reason goes to the column of its status, and the
      status is set as given, with no check of the transition. */
  function ApplyStatus(o: KitchenOrder, status: string, reason: string, now: int): Result<KitchenOrder, StatusError> {
    if NeedsReason(status) && reason == "" then Failure(ReasonMissing)
    else
      var stamped :=
        if status == "making" && o.timeMaking.None? then o.(timeMaking := Some(now))
        else if status == "deliver" && o.timeDeliver.None? then o.(timeDeliver := Some(now))
        else if status == "done" && o.timeDone.None? then o.(timeDone := Some(now))
        else o;
      var withPending := if status == "pending" then stamped.(pendingReason := Some(reason)) else stamped;
      var withCancel := if status in {"cancel", "habis"} then withPending.(cancelReason := Some(reason)) else withPending;
      Success(withCancel.(status := status))
  }

  /** The stamp a stage time gets from one change to `status`. */
  function Stamp(before: Option<int>, stage: string, status: string, now: int): Option<int> {
    if before.Some? then before else if status == stage then Some(now) else None
  }

  /** A change needs a reason exactly for cancel, habis and pending; an
      accepted change sets the status verbatim, fills each stage time only if
      it was empty and the status names that stage, stores the reason in the
      column of its status, and touches nothing else. */
  lemma ApplyStatusSpec(o: KitchenOrder, status: string, reason: string, now: int)
    ensures ApplyStatus(o, status, reason, now).Failure? <==> NeedsReason(status) && reason == ""
    ensures ApplyStatus(o, status, reason, now).Success? ==>
      var r := ApplyStatus(o, status, reason, now).value;
      r.status == status
      && r.timeMaking == Stamp(o.timeMaking, "making", status, now)
      && r.timeDeliver == Stamp(o.timeDeliver, "deliver", status, now)
      && r.timeDone == Stamp(o.timeDone, "done", status, now)
      && r.pendingReason == (if status == "pending" then Some(reason) else o.pendingReason)
      && r.cancelReason == (if status in {"cancel", "habis"} then Some(reason) else o.cancelReason)
      && r.detail == o.detail && r.timeReceive == o.timeReceive
      && r.customerName == o.customerName && r.tableNo == o.tableNo && r.roomName == o.roomName
  {
  }

  datatype StatusUpdate = StatusUpdate(status: string, reason: string, at: int)

  /** A ticket after a series of update_status calls; a refused call leaves
      it as it was. */
  function ApplyAll(o: KitchenOrder, updates: seq<StatusUpdate>): KitchenOrder
    decreases |updates|
  {
    if updates == [] then o
    else
      var u := updates[0];
      var next := match ApplyStatus(o, u.status, u.reason, u.at)
        case Success(o') => o'
        case Failure(_) => o;
      ApplyAll(next, updates[1..])
  }

  /** The time of the first update to `stage`. */
  function FirstTime(updates: seq<StatusUpdate>, stage: string): Option<int>
    decreases |updates|
  {
    if updates == [] then None
    else if updates[0].status == stage then Some(updates[0].at)
    else FirstTime(updates[1..], stage)
  }

  /** First write wins: each stage time ends up as it was if already set,
      and otherwise as the time of the first update to that stage. */
  lemma {:induction false} StageTimesFirstWriteWins(o: KitchenOrder, updates: seq<StatusUpdate>)
    ensures ApplyAll(o, updates).timeMaking == (if o.timeMaking.Some? then o.timeMaking else FirstTime(updates, "making"))
    ensures ApplyAll(o, updates).timeDeliver == (if o.timeDeliver.Some? then o.timeDeliver else FirstTime(updates, "deliver"))
    ensures ApplyAll(o, updates).timeDone == (if o.timeDone.Some? then o.timeDone else FirstTime(updates, "done"))
    ensures ApplyAll(o, updates).timeReceive == o.timeReceive && ApplyAll(o, updates).detail == o.detail
    decreases |updates|
  {
    if updates != [] {
      var u := updates[0];
      ApplyStatusSpec(o, u.status, u.reason, u.at);
      var next := match ApplyStatus(o, u.status, u.reason, u.at)
        case Success(o') => o'
        case Failure(_) => o;
      StageTimesFirstWriteWins(next, updates[1..]);
    }
  }

  // ---------------------------------------------------------------------
  // Durations and the kitchen's order list
  // ---------------------------------------------------------------------

  /** GET /kitchen/duration/{id} for a ticket that exists. */
  function Durations(o: KitchenOrder): (d: map<string, int>)
    ensures "making_to_deliver" in d <==> o.timeMaking.Some? && o.timeDeliver.Some?
    ensures "making_to_done" in d <==> o.timeMaking.Some? && o.timeDone.Some?
    ensures "making_to_deliver" in d ==> d["making_to_deliver"] == o.timeDeliver.value - o.timeMaking.value
    ensures "making_to_done" in d ==> d["making_to_done"] == o.timeDone.value - o.timeMaking.value
    ensures d.Keys <= {"making_to_deliver", "making_to_done"}
  {
    var d1: map<string, int> := map[];
    var d2 := if o.timeMaking.Some? && o.timeDeliver.Some? then d1["making_to_deliver" := o.timeDeliver.value - o.timeMaking.value] else d1;
    if o.timeMaking.Some? && o.timeDone.Some? then d2["making_to_done" := o.timeDone.value - o.timeMaking.value] else d2
  }

  /** GET /kitchen/orders as served. Two handlers are registered for the
      path and the first one answers: it lists every ticket, whatever its
      status and day. */
  function KitchenList(orders: map<string, KitchenOrder>): (ids: set<string>)
    ensures forall id :: id in ids <==> id in orders
  {
    orders.Keys
  }

  /** The filter of the second GET /kitchen/orders: every active ticket, and
      finished ones only when received on the day starting at startOfDay. */
  predicate ShownToday(o: KitchenOrder, startOfDay: int) {
    o.status in ActiveStatuses
    || (o.status in FinishedStatuses && o.timeReceive.Some?
        && startOfDay <= o.timeReceive.value < startOfDay + SecondsPerDay)
  }

  /** The second handler for GET /kitchen/orders, which the first
      registration shadows: the list the kitchen evidently intends. */
  function TodayList(orders: map<string, KitchenOrder>, startOfDay: int): (ids: set<string>)
    ensures ids <= orders.Keys
    ensures forall id :: id in orders && orders[id].status in ActiveStatuses ==> id in ids
    ensures forall id ::
      (id in orders && orders[id].status in FinishedStatuses && orders[id].timeReceive.Some?
       && startOfDay <= orders[id].timeReceive.value < startOfDay + SecondsPerDay) ==> id in ids
    ensures forall id :: id in ids && orders[id].status !in ActiveStatuses ==>
      orders[id].status in FinishedStatuses && orders[id].timeReceive.Some?
      && startOfDay <= orders[id].timeReceive.value < startOfDay + SecondsPerDay
  {
    set id | id in orders && ShownToday(orders[id], startOfDay)
  }

  /** The shadowed filter is never applied: a ticket finished before today
      is still listed, although the second handler would drop it. */
  lemma ServedListKeepsOldTickets(o: KitchenOrder, startOfDay: int)
    requires o.status == "done" && o.timeReceive == Some(startOfDay - 1)
    ensures "ORD1" in KitchenList(map["ORD1" := o])
    ensures "ORD1" !in TodayList(map["ORD1" := o], startOfDay)
  {
  }

  // ---------------------------------------------------------------------
  // The service state
  // ---------------------------------------------------------------------

  datatype ReceiveResult = KitchenClosed | DuplicateOrder | Received(timeReceive: int)

  /** The ticket receive_order stores. */
  function NewTicket(req: KitchenOrderRequest, now: int): KitchenOrder {
    KitchenOrder("receive", Detail(req.orders), req.customerName, req.tableNo, req.roomName,
                 Some(now), None, None, None, None, None)
  }

  class Kitchen {
    /** The kitchen_status row: None until it is first read or set. */
    var isOpen: Option<bool>
    var orders: map<string, KitchenOrder>

    constructor ()
      ensures isOpen.None? && orders == map[]
    {
      isOpen := None;
      orders := map[];
    }

    /** get_kitchen_status: creates an open kitchen if there is no row yet. */
    method GetKitchenStatus() returns (open: bool)
      modifies this
      ensures isOpen == Some(open)
      ensures old(isOpen).Some? ==> isOpen == old(isOpen)
      ensures old(isOpen).None? ==> open
      ensures orders == old(orders)
    {
      if isOpen.None? {
        isOpen := Some(true);
      }
      open := isOpen.value;
    }

    /** POST /kitchen/status. */
    method SetKitchenStatus(open: bool)
      modifies this
      ensures isOpen == Some(open) && orders == old(orders)
    {
      var _ := GetKitchenStatus();
      isOpen := Some(open);
    }

    /** POST /receive_order. */
    method ReceiveOrder(req: KitchenOrderRequest, now: int) returns (r: ReceiveResult)
      modifies this
      ensures isOpen.Some? && (old(isOpen).Some? ==> isOpen == old(isOpen))
      ensures r == KitchenClosed <==> !isOpen.value
      ensures r == DuplicateOrder <==> isOpen.value && req.orderId in old(orders)
      ensures !r.Received? ==> orders == old(orders)
      ensures r.Received? ==> r == Received(now) && orders == old(orders)[req.orderId := NewTicket(req, now)]
    {
      var open := GetKitchenStatus();
      if !open {
        return KitchenClosed;
      }
      if req.orderId in orders {
        return DuplicateOrder;
      }
      var detail := Detail(req.orders);
      orders := orders[req.orderId := KitchenOrder("receive", detail, req.customerName, req.tableNo, req.roomName,
                                                   Some(now), None, None, None, None, None)];
      r := Received(now);
    }

    /** POST /kitchen/update_status/{order_id}. */
    method UpdateStatus(orderId: string, status: string, reason: string, now: int) returns (err: Option<StatusError>)
      modifies this
      ensures isOpen == old(isOpen)
      ensures orderId !in old(orders) ==> err == Some(OrderNotFound) && orders == old(orders)
      ensures orderId in old(orders) ==>
        match ApplyStatus(old(orders)[orderId], status, reason, now)
        case Failure(e) => err == Some(e) && orders == old(orders)
        case Success(o) => err.None? && orders == old(orders)[orderId := o]
    {
      if orderId !in orders {
        return Some(OrderNotFound);
      }
      if status in {"cancel", "habis", "pending"} && reason == "" {
        return Some(ReasonMissing);
      }
      var o := orders[orderId];
      if status == "making" && o.timeMaking.None? {
        o := o.(timeMaking := Some(now));
      } else if status == "deliver" && o.timeDeliver.None? {
        o := o.(timeDeliver := Some(now));
      } else if status == "done" && o.timeDone.None? {
        o := o.(timeDone := Some(now));
      }
      if status == "pending" {
        o := o.(pendingReason := Some(reason));
      }
      if status in {"cancel", "habis"} {
        o := o.(cancelReason := Some(reason));
      }
      o := o.(status := status);
      orders := orders[orderId := o];
      err := None;
    }

    /** GET /kitchen/duration/{order_id}. */
    method GetOrderDurations(orderId: string) returns (r: Result<map<string, int>, StatusError>)
      ensures orderId !in orders <==> r == Failure(OrderNotFound)
      ensures orderId in orders ==> r == Success(Durations(orders[orderId]))
    {
      if orderId !in orders {
        return Failure(OrderNotFound);
      }
      r := Success(Durations(orders[orderId]));
    }
  }
}
