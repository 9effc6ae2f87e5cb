/** The nightly sweep of src/helpers/cron_job.ts: every category flagged for deletion that no product
    references is removed. One `try` wraps the whole loop, so a store error ends the sweep and keeps the
    deletions made before it. */
module CategorySweep {
  import opened Common
  import opened Records
  import opened ProductModel
  import opened Store

  /** Some product points at the category. */
  predicate Referenced(products: map<Id, Product>, id: Id) {
    exists p :: p in products && products[p].category == id
  }

  /** The sweep may remove this category: it is flagged and no product points at it. */
  predicate Removable(categories: map<Id, Category>, products: map<Id, Product>, id: Id) {
    id in categories && categories[id].markedForDeletion && !Referenced(products, id)
  }

  /** The collection after a complete sweep. */
  function Purge(categories: map<Id, Category>, products: map<Id, Product>): (r: map<Id, Category>)
    ensures forall k :: k in r ==> k in categories && r[k] == categories[k]
    ensures forall k :: k in categories && !categories[k].markedForDeletion ==> k in r
    ensures forall k :: k in categories && Referenced(products, k) ==> k in r
    ensures forall k :: k in categories && k !in r ==> Removable(categories, products, k)
  {
    map k | k in categories && !Removable(categories, products, k) :: categories[k]
  }

  /** A second sweep with nothing changed in between removes nothing more. */
  lemma PurgeIdempotent(categories: map<Id, Category>, products: map<Id, Product>)
    ensures Purge(Purge(categories, products), products) == Purge(categories, products)
  {
    var once := Purge(categories, products);
    forall k | k in once ensures !Removable(once, products, k) {
      assert !Removable(categories, products, k);
    }
  }

  /** The categories `find({ markedForDeletion: true })` returns. */
  function FlaggedIds(categories: map<Id, Category>): (ks: set<Id>)
    ensures forall k :: k in ks <==> k in categories && categories[k].markedForDeletion
  {
    set k | k in categories && categories[k].markedForDeletion
  }

  /** `Product.countDocuments({ category: id })`. */
  function ProductsIn(products: map<Id, Product>, id: Id): (n: nat)
    ensures n == 0 <==> !Referenced(products, id)
  {
    var s := set p | p in products && products[p].category == id;
    assert Referenced(products, id) ==> s != {} by {
      if Referenced(products, id) {
        var p :| p in products && products[p].category == id;
        assert p in s;
      }
    }
    |s|
  }

  /** The collection once the categories in `examined` have been looked at. */
  function Swept(categories: map<Id, Category>, products: map<Id, Product>, examined: set<Id>): (r: map<Id, Category>)
    ensures forall k :: k in r ==> k in categories && r[k] == categories[k]
    ensures forall k :: k in categories && k !in r ==> k in examined && Removable(categories, products, k)
  {
    map k | k in categories && !(k in examined && Removable(categories, products, k)) :: categories[k]
  }

  lemma SweptStep(categories: map<Id, Category>, products: map<Id, Product>, examined: set<Id>, id: Id)
    ensures Swept(categories, products, examined + {id})
         == if Removable(categories, products, id) then Swept(categories, products, examined) - {id}
            else Swept(categories, products, examined)
  {
  }

  lemma SweptAll(categories: map<Id, Category>, products: map<Id, Product>)
    ensures Swept(categories, products, FlaggedIds(categories)) == Purge(categories, products)
  {
  }

  /** One run of the scheduled job. `fault` numbers the store call that throws, counting the `find` as 1 and
      then each count and each delete in the order they are issued. */
  method Sweep(db: Db, fault: Fault)
    modifies db`categories
    ensures fault.None? ==> db.categories == Purge(old(db.categories), db.products)
    ensures forall k :: k in db.categories ==> k in old(db.categories) && db.categories[k] == old(db.categories)[k]
    ensures forall k :: k in old(db.categories) && k !in db.categories ==> Removable(old(db.categories), db.products, k)
    ensures FailsAt(fault, 1) ==> db.categories == old(db.categories)
  {
    var step := 1;
    if FailsAt(fault, step) {
      return;
    }
    var pending := FlaggedIds(db.categories);
    ghost var examined: set<Id> := {};
    assert Swept(old(db.categories), db.products, {}) == db.categories;
    while pending != {}
      invariant pending !! examined && pending + examined == FlaggedIds(old(db.categories))
      invariant db.categories == Swept(old(db.categories), db.products, examined)
      decreases pending
    {
      var id :| id in pending;
      step := step + 1;
      if FailsAt(fault, step) {
        return;
      }
      SweptStep(old(db.categories), db.products, examined, id);
      var count := ProductsIn(db.products, id);
      if count < 1 {
        step := step + 1;
        if FailsAt(fault, step) {
          return;
        }
        db.categories := db.categories - {id};
      }
      pending := pending - {id};
      examined := examined + {id};
    }
    SweptAll(old(db.categories), db.products);
  }
}
