/** The document store: one map from id to document per collection, plus the files of the upload directory. */
module Store {
  import opened Common
  import opened Records
  import opened OrderModel
  import opened ProductModel

  class Db {
    var users: map<Id, User>
    var tokens: map<Id, TokenDoc>
    var categories: map<Id, Category>
    var products: map<Id, Product>
    var reviews: map<Id, Review>
    var orders: map<Id, Order>
    var orderItems: map<Id, OrderItem>
    var cartProducts: map<Id, CartProduct>
    /** Names of the files under public/uploads. */
    var uploads: set<string>

    constructor ()
      ensures users == map[] && tokens == map[] && categories == map[] && products == map[]
      ensures reviews == map[] && orders == map[] && orderItems == map[] && cartProducts == map[]
      ensures uploads == {}
    {
      users, tokens, categories, products := map[], map[], map[], map[];
      reviews, orders, orderItems, cartProducts := map[], map[], map[], map[];
      uploads := {};
    }
  }

  /** `m` without the keys in `ks` (what a `deleteMany({_id: {$in: ks}})` leaves). */
  function Without<T>(m: map<Id, T>, ks: set<Id>): (r: map<Id, T>)
    ensures forall k :: k in r <==> k in m && k !in ks
    ensures forall k :: k in r ==> r[k] == m[k]
  {
    map k | k in m && k !in ks :: m[k]
  }

  /** The keys of `m` whose document satisfies `p` (what `deleteMany(filter)` removes). */
  function KeysWhere<T>(m: map<Id, T>, p: T -> bool): (ks: set<Id>)
    ensures forall k :: k in ks <==> k in m && p(m[k])
  {
    set k | k in m && p(m[k])
  }
}
