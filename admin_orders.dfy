/** The admin order handlers of src/controllers/admin/orders.ts: the status change with its history, the
    order delete, and the order count. */
module AdminOrders {
  import opened Common
  import opened Records
  import opened OrderModel
  import opened Store

  const OrderNotFound := "Order not found"
  const PendingToDelivered := "Order cannot be changed directly from pending to delivered"
  const CouldNotCount := "Could not count orders!"

  /** The refusal test as the handler writes it: lower-case literals, compared exactly. */
  predicate RefusesAsWritten(current: string, requested: Option<string>) {
    current == "pending" && requested == Some("delivered")
  }

  /** The refusal its message describes, over the enum's own spellings. */
  predicate RefusesIntended(current: string, requested: Option<string>) {
    current == Pending && requested == Some(Delivered)
  }

  /** Record the current status in the history unless it is already there, then take the requested one. */
  function WithStatus(o: Order, s: string): (r: Order)
    ensures r.status == s && o.status in r.statusHistory
    ensures o.status in o.statusHistory ==> r.statusHistory == o.statusHistory
    ensures |o.statusHistory| <= |r.statusHistory| <= |o.statusHistory| + 1
    ensures r.statusHistory[..|o.statusHistory|] == o.statusHistory
    ensures NoDuplicates(o.statusHistory) ==> NoDuplicates(r.statusHistory)
    ensures SchemaValid(o) && IsStatus(s) ==> SchemaValid(r)
    ensures r.orderItems == o.orderItems && r.user == o.user
  {
    if o.status in o.statusHistory then o.(status := s)
    else o.(statusHistory := o.statusHistory + [o.status], status := s)
  }

  /** What one status request does to an order that was found. */
  datatype Verdict = Refused | Invalid | Saved(order: Order)

  /** The decision as written: refusal first, then `save()` validation of the updated order. */
  function Decide(o: Order, requested: Option<string>): (v: Verdict)
    ensures v.Refused? <==> RefusesAsWritten(o.status, requested)
    ensures v.Saved? <==> !RefusesAsWritten(o.status, requested) && requested.Some?
                          && SchemaValid(WithStatus(o, requested.value))
    ensures v.Saved? ==> v.order == WithStatus(o, requested.value)
  {
    if RefusesAsWritten(o.status, requested) then Refused
    else if requested.Some? && SchemaValid(WithStatus(o, requested.value)) then Saved(WithStatus(o, requested.value))
    else Invalid
  }

  /** The same decision with the refusal the handler means. */
  function DecideIntended(o: Order, requested: Option<string>): (v: Verdict)
    ensures v.Refused? <==> RefusesIntended(o.status, requested)
    ensures v.Saved? ==> requested.Some? && v.order == WithStatus(o, requested.value) && SchemaValid(v.order)
    ensures v.Saved? ==> !(o.status == Pending && v.order.status == Delivered)
  {
    if RefusesIntended(o.status, requested) then Refused
    else if requested.Some? && SchemaValid(WithStatus(o, requested.value)) then Saved(WithStatus(o, requested.value))
    else Invalid
  }

  /** The reply for a verdict. */
  function VerdictReply(v: Verdict): Reply {
    match v
    case Refused => Reply(400, Message(PendingToDelivered))
    case Invalid => Reply(500, Thrown("ValidationError"))
    case Saved(_) => Reply(200, Document)
  }

  /** `changeOrderStatus`. The request body's `status` is `None` when the body lacks it. */
  method ChangeOrderStatus(db: Db, id: Id, requested: Option<string>) returns (reply: Reply)
    modifies db`orders
    ensures !IsObjectId(id) ==> reply == Reply(500, Thrown("CastError")) && db.orders == old(db.orders)
    ensures IsObjectId(id) && id !in old(db.orders) ==>
              reply == Reply(404, Message(OrderNotFound)) && db.orders == old(db.orders)
    ensures IsObjectId(id) && id in old(db.orders) ==>
              var v := Decide(old(db.orders)[id], requested);
              reply == VerdictReply(v)
              && db.orders == (if v.Saved? then old(db.orders)[id := v.order] else old(db.orders))
  {
    if !IsObjectId(id) {
      return Reply(500, Thrown("CastError"));
    }
    if id !in db.orders {
      return Reply(404, Message(OrderNotFound));
    }
    var order := db.orders[id];
    var currentStatus := order.status;
    if currentStatus == "pending" && requested == Some("delivered") {
      return Reply(400, Message(PendingToDelivered));
    }
    if order.status !in order.statusHistory {
      order := order.(statusHistory := order.statusHistory + [order.status]);
    }
    if requested.None? {
      return Reply(500, Thrown("ValidationError"));
    }
    order := order.(status := requested.value);
    if !SchemaValid(order) {
      return Reply(500, Thrown("ValidationError"));
    }
    db.orders := db.orders[id := order];
    reply := Reply(200, Document);
  }

  /** A sequence of status requests against one order, each decided as written. */
  function Replay(o: Order, requests: seq<Option<string>>): Order
    decreases |requests|
  {
    if requests == [] then o
    else
      var v := Decide(o, requests[0]);
      Replay(if v.Saved? then v.order else o, requests[1..])
  }

  /** Over any sequence of requests, a valid duplicate-free history stays valid and duplicate-free, keeps its
      entries in order, and grows by at most one entry per request. */
  lemma {:induction false} ReplayKeepsHistory(o: Order, requests: seq<Option<string>>)
    requires SchemaValid(o) && NoDuplicates(o.statusHistory)
    ensures var r := Replay(o, requests);
            SchemaValid(r) && NoDuplicates(r.statusHistory)
            && |o.statusHistory| <= |r.statusHistory| <= |o.statusHistory| + |requests|
            && r.statusHistory[..|o.statusHistory|] == o.statusHistory
    decreases |requests|
  {
    if requests != [] {
      var v := Decide(o, requests[0]);
      var next := if v.Saved? then v.order else o;
      ReplayKeepsHistory(next, requests[1..]);
      var r := Replay(next, requests[1..]);
      assert r.statusHistory[..|o.statusHistory|] == r.statusHistory[..|next.statusHistory|][..|o.statusHistory|];
    }
  }

  /** The refusal as written never fires for an order the schema accepts. */
  lemma GuardNeverFires(o: Order, requested: Option<string>)
    requires SchemaValid(o)
    ensures Decide(o, requested) != Refused
  {
    GuardLiteralsAreNotStatuses();
  }

  /** A new order goes straight from "Pending" to "Delivered" as written. */
  lemma PendingToDeliveredAccepted()
    ensures var o := NewOrder([], None);
            Decide(o, Some(Delivered)) == Saved(o.(status := Delivered))
            && DecideIntended(o, Some(Delivered)) == Refused
  {
    var o := NewOrder([], None);
    assert "Pending" != "pending";
    assert IsStatus(Delivered);
  }

  /** The order collection after `deleteOrder` of a found order: the order, then one `Order` deletion per
      entry of its `orderItems`, in order. */
  function OrdersAfterDelete(orders: map<Id, Order>, id: Id): (r: map<Id, Order>)
    requires id in orders
    ensures id !in r
    ensures forall k :: k in r <==> k in orders && k != id && k !in orders[id].orderItems
    ensures forall k :: k in r ==> r[k] == orders[k]
  {
    Without(orders, {id} + (set j | 0 <= j < |orders[id].orderItems| :: orders[id].orderItems[j]))
  }

  /** `deleteOrder`. Item ids come from an ObjectId-typed array, so their lookups never fail on the id. */
  method DeleteOrder(db: Db, id: Id) returns (reply: Reply)
    modifies db`orders
    ensures !IsObjectId(id) ==> reply == Reply(500, Thrown("CastError")) && db.orders == old(db.orders)
    ensures IsObjectId(id) && id !in old(db.orders) ==>
              reply == Reply(404, Message(OrderNotFound)) && db.orders == old(db.orders)
    ensures IsObjectId(id) && id in old(db.orders) ==>
              reply == Reply(204, NoContent) && db.orders == OrdersAfterDelete(old(db.orders), id)
  {
    if !IsObjectId(id) {
      return Reply(500, Thrown("CastError"));
    }
    if id !in db.orders {
      return Reply(404, Message(OrderNotFound));
    }
    var order := db.orders[id];
    db.orders := db.orders - {id};
    var i := 0;
    while i < |order.orderItems|
      invariant 0 <= i <= |order.orderItems|
      invariant db.orders == Without(old(db.orders), {id} + (set j | 0 <= j < i :: order.orderItems[j]))
    {
      db.orders := db.orders - {order.orderItems[i]};
      i := i + 1;
    }
    reply := Reply(204, NoContent);
  }

  /** What deleting an order should do to the order items: drop every item it lists. */
  function OrderItemsAfterDeleteIntended(orders: map<Id, Order>, items: map<Id, OrderItem>, id: Id)
    : (r: map<Id, OrderItem>)
    requires id in orders
    ensures forall j :: 0 <= j < |orders[id].orderItems| ==> orders[id].orderItems[j] !in r
    ensures forall k :: k in r ==> k in items && r[k] == items[k]
    ensures forall k :: k in items && k !in orders[id].orderItems ==> k in r
  {
    Without(items, set j | 0 <= j < |orders[id].orderItems| :: orders[id].orderItems[j])
  }

  /** As written, the items of a deleted order stay behind: `deleteOrder` leaves the item collection alone,
      and an item id is not an order id. */
  lemma DeleteOrderOrphansItems()
    ensures var item := "000000000000000000000002";
            var orders := map["000000000000000000000001" := NewOrder([item], None)];
            var items := map[item := OrderItem("000000000000000000000003", 1)];
            OrdersAfterDelete(orders, "000000000000000000000001") == map[]
            && item in items
            && item !in OrderItemsAfterDeleteIntended(orders, items, "000000000000000000000001")
  {
    var item := "000000000000000000000002";
    var orders := map["000000000000000000000001" := NewOrder([item], None)];
    assert orders["000000000000000000000001"].orderItems[0] == item;
  }

  /** `getOrdersCount`. */
  method GetOrdersCount(db: Db) returns (reply: Reply)
    ensures reply == CountReply(|db.orders|, CouldNotCount, true)
    ensures reply.status == 200 <==> |db.orders| > 0
  {
    var count := |db.orders|;
    if count == 0 {
      return Reply(500, Message(CouldNotCount));
    }
    reply := Reply(200, CountOf(count, true));
  }
}
