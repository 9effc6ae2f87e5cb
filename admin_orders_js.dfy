/** The plain-JavaScript copy of the admin order handlers (controllers/admin/orders.js). The status change and
    the count behave as in the typed copy; the delete calls a model method that does not exist. */
module AdminOrdersJs {
  import opened Common
  import opened Records
  import opened OrderModel
  import opened Store
  import AdminOrders

  /** `changeOrderStatus`: the same lookup, lower-case refusal, history push and save. */
  method ChangeOrderStatus(db: Db, id: Id, requested: Option<string>) returns (reply: Reply)
    modifies db`orders
    ensures !IsObjectId(id) ==> reply == Reply(500, Thrown("CastError")) && db.orders == old(db.orders)
    ensures IsObjectId(id) && id !in old(db.orders) ==>
              reply == Reply(404, Message(AdminOrders.OrderNotFound)) && db.orders == old(db.orders)
    ensures IsObjectId(id) && id in old(db.orders) ==>
              var v := AdminOrders.Decide(old(db.orders)[id], requested);
              reply == AdminOrders.VerdictReply(v)
              && db.orders == (if v.Saved? then old(db.orders)[id := v.order] else old(db.orders))
  {
    reply := AdminOrders.ChangeOrderStatus(db, id, requested);
  }

  /** `getOrdersCount`. */
  method GetOrdersCount(db: Db) returns (reply: Reply)
    ensures reply == CountReply(|db.orders|, AdminOrders.CouldNotCount, true)
  {
    reply := AdminOrders.GetOrdersCount(db);
  }

  /** `deleteOrder`: `Order.findByIdDelete` is not a function, so the first call throws a TypeError, which the
      catch answers with 500 before anything is deleted. */
  method DeleteOrder(db: Db, id: Id) returns (reply: Reply)
    ensures reply == Reply(500, Thrown("TypeError"))
  {
    reply := Reply(500, Thrown("TypeError"));
  }
}
