/** controllers/admin/users.js, the JavaScript copy of the administrator's user endpoints: the same count and
    the same cascade, nested order-item lists included. */
module AdminUsersJs {
  import opened Common
  import opened Records
  import opened Store
  import opened TokenStore
  import AdminUsers

  /** `getUsersCount`: the bare number, or a 500 for an empty collection. */
  function GetUsersCount(users: map<Id, User>): (r: Reply)
    ensures r.Is(500) <==> |users| == 0
    ensures r.Is(200) ==> r.body == CountOf(|users|, false)
  {
    AdminUsers.GetUsersCount(users)
  }

  /** `deleteUser`, the same eight store steps in the same order. */
  method DeleteUser(db: Db, uid: Id, fault: Fault) returns (reply: Reply)
    modifies db`users, db`orders, db`orderItems, db`cartProducts, db`tokens
    ensures IsObjectId(uid) && !FailsAt(fault, 1) && uid !in old(db.users) ==>
              && reply == Reply(404, Message(AdminUsers.UserNotFound))
              && db.users == old(db.users) && db.orders == old(db.orders) && db.orderItems == old(db.orderItems)
              && db.cartProducts == old(db.cartProducts) && db.tokens == old(db.tokens)
    ensures IsObjectId(uid) && !FailsAt(fault, 1) && uid in old(db.users) ==>
              var found := AdminUsers.UserOrders(old(db.orders), uid);
              var cast := AdminUsers.NestedListsCast(old(db.orders), found);
              && db.orders == (if AdminUsers.Completes(fault, cast, 3) then Without(old(db.orders), found)
                               else old(db.orders))
              && db.orderItems == (if AdminUsers.Completes(fault, cast, 4)
                                   then Without(old(db.orderItems), AdminUsers.NestedListIds(old(db.orders), found))
                                   else old(db.orderItems))
              && (reply.Is(204) <==> AdminUsers.Completes(fault, cast, 8))
    ensures reply.Is(204) ==>
              && uid !in db.users
              && (forall k :: k in db.orders ==> db.orders[k].user != Some(uid))
              && (OneTokenPerUser(old(db.tokens)) ==> RecordsOf(db.tokens, uid) == {})
  {
    reply := AdminUsers.DeleteUser(db, uid, fault);
  }
}
