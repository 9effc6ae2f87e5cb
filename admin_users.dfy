/** The administrator's user endpoints (src/controllers/admin/users.ts): the user count and the cascade that
    deletes a user together with the user's orders, order items, cart lines and login session. */
module AdminUsers {
  import opened Common
  import opened Records
  import opened OrderModel
  import opened Store
  import opened TokenStore

  const CouldNotCount := "Could not get user count"
  const UserNotFound := "User not found"

  /** `getUsersCount`: a zero count is a server error; otherwise the bare number. */
  function GetUsersCount(users: map<Id, User>): (r: Reply)
    ensures r.Is(500) <==> |users| == 0
    ensures r.Is(500) ==> r.body == Message(CouldNotCount)
    ensures r.Is(200) ==> r.body == CountOf(|users|, false)
  {
    CountReply(|users|, CouldNotCount, false)
  }

  /** The orders `Order.find({user})` returns, and `Order.deleteMany({user})` removes. */
  function UserOrders(orders: map<Id, Order>, uid: Id): (ks: set<Id>)
    ensures forall k :: k in ks <==> k in orders && orders[k].user == Some(uid)
  {
    KeysWhere(orders, (o: Order) => o.user == Some(uid))
  }

  /** The order-item deletion receives one list of item ids per order (`orders.map(o => o.orderItems)`), and
      the store casts each list to a single ObjectId through its text: an empty list is passed through and
      matches nothing, a one-item list reads as its only id, and a longer list reads as "a,b", which is no
      ObjectId, so the cast throws. */
  predicate NestedListsCast(orders: map<Id, Order>, found: set<Id>)
    requires found <= orders.Keys
  {
    forall k :: k in found ==> |orders[k].orderItems| <= 1
  }

  /** The item ids the nested lists match when they cast: the only item of each one-item order. */
  function NestedListIds(orders: map<Id, Order>, found: set<Id>): (ids: set<Id>)
    requires found <= orders.Keys
    ensures forall k :: k in found && |orders[k].orderItems| == 1 ==> orders[k].orderItems[0] in ids
    ensures forall i :: i in ids ==> exists k :: k in found && |orders[k].orderItems| == 1 && orders[k].orderItems[0] == i
  {
    set k | k in found && |orders[k].orderItems| == 1 :: orders[k].orderItems[0]
  }

  /** What the cascade evidently means to delete: every item of every order found, the lists flattened. */
  function AllItemIds(orders: map<Id, Order>, found: set<Id>): (ids: set<Id>)
    requires found <= orders.Keys
    ensures forall k, j :: k in found && 0 <= j < |orders[k].orderItems| ==> orders[k].orderItems[j] in ids
  {
    set k, j | k in found && 0 <= j < |orders[k].orderItems| :: orders[k].orderItems[j]
  }

  /** Where the nested lists do cast, they match exactly the items the flattened lists would. */
  lemma NestedAgreesWhenCast(orders: map<Id, Order>, found: set<Id>)
    requires found <= orders.Keys && NestedListsCast(orders, found)
    ensures NestedListIds(orders, found) == AllItemIds(orders, found)
  {
    forall i | i in AllItemIds(orders, found) ensures i in NestedListIds(orders, found) {
      var k, j :| k in found && 0 <= j < |orders[k].orderItems| && orders[k].orderItems[j] == i;
      assert j == 0;
    }
  }

  /** As written, one order with two items is enough to make the order-item deletion throw. */
  lemma TwoItemOrderBreaksCascade()
    ensures var uid := "000000000000000000000001";
            var orders := map["000000000000000000000002" := NewOrder(["000000000000000000000003", "000000000000000000000004"], Some(uid))];
            && UserOrders(orders, uid) == {"000000000000000000000002"}
            && !NestedListsCast(orders, UserOrders(orders, uid))
  {
    var uid := "000000000000000000000001";
    var orders := map["000000000000000000000002" := NewOrder(["000000000000000000000003", "000000000000000000000004"], Some(uid))];
    assert "000000000000000000000002" in UserOrders(orders, uid);
  }

  /** The ids listed in a user's cart. */
  function CartIds(u: User): (ids: set<Id>)
    ensures forall i :: i in ids <==> i in u.cart
  {
    set j | 0 <= j < |u.cart| :: u.cart[j]
  }

  /** Store steps 1 to `step` of the cascade all succeed: none of them is the one that throws, and when the
      order-item deletion (step 4) is among them, its nested lists cast. */
  predicate Completes(fault: Fault, cast: bool, step: nat) {
    (fault.None? || fault.value == 0 || fault.value > step) && (step >= 4 ==> cast)
  }

  /** `deleteUser`. The store steps, in the order issued: 1 `findById`, 2 `Order.find`, 3 `Order.deleteMany`,
      4 `OrderItem.deleteMany`, 5 `CartProduct.deleteMany`, 6 the cart `$pull`, 7 `Token.deleteOne`,
      8 `User.deleteOne`; `fault` names the one that throws. Each step is awaited before the next, so a
      failure keeps what the earlier steps deleted. */
  method DeleteUser(db: Db, uid: Id, fault: Fault) returns (reply: Reply)
    modifies db`users, db`orders, db`orderItems, db`cartProducts, db`tokens
    ensures !IsObjectId(uid) || FailsAt(fault, 1) || uid !in old(db.users) ==>
              && db.users == old(db.users) && db.orders == old(db.orders) && db.orderItems == old(db.orderItems)
              && db.cartProducts == old(db.cartProducts) && db.tokens == old(db.tokens)
    ensures !IsObjectId(uid) || FailsAt(fault, 1) ==> reply.Is(500)
    ensures IsObjectId(uid) && !FailsAt(fault, 1) && uid !in old(db.users) ==> reply == Reply(404, Message(UserNotFound))
    ensures IsObjectId(uid) && !FailsAt(fault, 1) && uid in old(db.users) ==>
              var u := old(db.users)[uid];
              var found := UserOrders(old(db.orders), uid);
              var cast := NestedListsCast(old(db.orders), found);
              && db.orders == (if Completes(fault, cast, 3) then Without(old(db.orders), found) else old(db.orders))
              && db.orderItems == (if Completes(fault, cast, 4)
                                   then Without(old(db.orderItems), NestedListIds(old(db.orders), found))
                                   else old(db.orderItems))
              && db.cartProducts == (if Completes(fault, cast, 5) then Without(old(db.cartProducts), CartIds(u))
                                     else old(db.cartProducts))
              && db.users == (if Completes(fault, cast, 8) then old(db.users) - {uid}
                              else if Completes(fault, cast, 6) then old(db.users)[uid := u.(cart := [])]
                              else old(db.users))
              && (!Completes(fault, cast, 7) || RecordsOf(old(db.tokens), uid) == {} ==> db.tokens == old(db.tokens))
              && (Completes(fault, cast, 7) && RecordsOf(old(db.tokens), uid) != {} ==>
                    exists k :: k in RecordsOf(old(db.tokens), uid) && db.tokens == old(db.tokens) - {k})
              && (reply.Is(204) <==> Completes(fault, cast, 8))
              && (!Completes(fault, cast, 8) ==> reply.Is(500))
    ensures reply.Is(204) ==>
              && uid !in db.users
              && (forall k :: k in db.orders ==> db.orders[k].user != Some(uid))
              && (OneTokenPerUser(old(db.tokens)) ==> RecordsOf(db.tokens, uid) == {})
  {
    if !IsObjectId(uid) {
      return Reply(500, Thrown("CastError"));
    }
    if FailsAt(fault, 1) {
      return Reply(500, Thrown("StoreError"));
    }
    if uid !in db.users {
      return Reply(404, Message(UserNotFound));
    }
    var user := db.users[uid];
    if FailsAt(fault, 2) {
      return Reply(500, Thrown("StoreError"));
    }
    var found := UserOrders(db.orders, uid);
    var orders := db.orders;
    if FailsAt(fault, 3) {
      return Reply(500, Thrown("StoreError"));
    }
    db.orders := Without(db.orders, found);
    if !NestedListsCast(orders, found) {
      return Reply(500, Thrown("CastError"));
    }
    if FailsAt(fault, 4) {
      return Reply(500, Thrown("StoreError"));
    }
    db.orderItems := Without(db.orderItems, NestedListIds(orders, found));
    if FailsAt(fault, 5) {
      return Reply(500, Thrown("StoreError"));
    }
    db.cartProducts := Without(db.cartProducts, CartIds(user));
    if FailsAt(fault, 6) {
      return Reply(500, Thrown("StoreError"));
    }
    db.users := db.users[uid := user.(cart := [])];
    if FailsAt(fault, 7) {
      return Reply(500, Thrown("StoreError"));
    }
    var session := RecordsOf(db.tokens, uid);
    if session != {} {
      var k :| k in session;
      db.tokens := db.tokens - {k};
    }
    if FailsAt(fault, 8) {
      return Reply(500, Thrown("StoreError"));
    }
    db.users := db.users - {uid};
    reply := Reply(204, NoContent);
  }

  /** What the cascade evidently means to do to the order items once the orders are gone: remove every item of
      every order of the user, whatever the number of items per order. */
  function ItemsAfterUserDeleteIntended(orders: map<Id, Order>, items: map<Id, OrderItem>, uid: Id)
    : (r: map<Id, OrderItem>)
    ensures forall k, j :: k in orders && orders[k].user == Some(uid) && 0 <= j < |orders[k].orderItems| ==>
              orders[k].orderItems[j] !in r
    ensures forall i :: i in r ==> i in items && r[i] == items[i]
    ensures forall i :: i in items && (forall k :: k in orders && orders[k].user == Some(uid) ==> i !in orders[k].orderItems) ==>
              i in r
  {
    var gone := AllItemIds(orders, UserOrders(orders, uid));
    assert forall i :: i in gone ==> exists k :: k in orders && orders[k].user == Some(uid) && i in orders[k].orderItems;
    Without(items, gone)
  }
}
