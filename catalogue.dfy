/** The public product endpoints of src/controllers/products.ts: the filter `getProducts` and
    `searchProducts` build from the query string, their skip arithmetic, and `getProductById`. The filters are
    data; `Matches` says which products a filter selects, with text search left to a parameter. */
module Catalogue {
  import opened Common
  import opened Strings
  import opened Records
  import opened ProductModel
  import opened Store
  import opened Pagination

  const NoProductsFound := "No products found"
  const ProductNotFound := "Product not found"
  /** The store's refusal of a negative `skip`. */
  const NegativeSkip := "BadValue"
  /** Fourteen days in milliseconds. */
  const TwoWeeks := 14 * 24 * 60 * 60 * 1000
  const PopularRating := 4.5

  /** A query-string value: one string, or a list when the key is repeated. */
  datatype Param = Text(s: string) | Many(xs: seq<string>)

  /** JavaScript truthiness of a query value: a list is always true, a string when it is not empty. */
  predicate Truthy(p: Option<Param>) {
    p.Some? && (p.value.Many? || p.value.s != "")
  }

  /** One condition of a filter document. */
  datatype Condition =
    | Equal(s: string)            // { key: value }
    | OnOrAfter(time: int)        // { key: { $gte: time } }
    | Above(x: real)              // { key: { $gt: x } }
    | TextSearch(term: string)    // { $text: { $search: term } }

  type Filter = map<string, Condition>

  /** The filter of `getProducts`. */
  function ListFilter(criteria: Option<string>, category: Option<string>, now: int): (f: Filter)
    ensures "category" in f <==> Filled(category)
    ensures "category" in f ==> f["category"] == Equal(category.value)
    ensures "dateAdded" in f <==> criteria == Some("newArrivals")
    ensures "dateAdded" in f ==> f["dateAdded"] == OnOrAfter(now - TwoWeeks)
    ensures "rating" in f <==> criteria == Some("popular")
    ensures "rating" in f ==> f["rating"] == Above(PopularRating)
    ensures f.Keys <= {"category", "dateAdded", "rating"}
  {
    var base: Filter := if Filled(category) then map["category" := Equal(category.value)] else map[];
    if !Filled(criteria) then base
    else if criteria.value == "newArrivals" then base["dateAdded" := OnOrAfter(now - TwoWeeks)]
    else if criteria.value == "popular" then base["rating" := Above(PopularRating)]
    else base
  }

  /** An unknown criteria value filters exactly as no criteria at all. */
  lemma UnknownCriteriaIgnored(criteria: string, category: Option<string>, now: int)
    requires criteria != "newArrivals" && criteria != "popular"
    ensures ListFilter(Some(criteria), category, now) == ListFilter(None, category, now)
  {
  }

  /** The filter of `searchProducts`. */
  function SearchFilter(category: Option<string>, gender: Option<Param>, q: Option<string>): (f: Filter)
    ensures "category" in f <==> Filled(category)
    ensures "category" in f ==> f["category"] == Equal(category.value)
    ensures Filled(category) ==> ("genderAgeCategory" in f <==> gender.Some? && gender.value.Text?)
    ensures !Filled(category) ==> ("genderAgeCategory" in f <==> Truthy(gender))
    ensures "genderAgeCategory" in f ==>
              f["genderAgeCategory"] == Equal(if gender.value.Text? then Lower(gender.value.s) else "")
    ensures "$text" in f <==> Filled(q)
    ensures "$text" in f ==> f["$text"] == TextSearch(q.value)
    ensures f.Keys <= {"category", "genderAgeCategory", "$text"}
  {
    var base: Filter :=
      if Filled(category) then
        if gender.Some? && gender.value.Text? then map["category" := Equal(category.value), "genderAgeCategory" := Equal(Lower(gender.value.s))]
        else map["category" := Equal(category.value)]
      else if Truthy(gender) then
        map["genderAgeCategory" := Equal(if gender.value.Text? then Lower(gender.value.s) else "")]
      else map[];
    if Filled(q) then base["$text" := TextSearch(q.value)] else base
  }

  /** Whether a product satisfies one condition; `textMatch` stands for the text index. */
  predicate Satisfies(p: Product, key: string, c: Condition, textMatch: (Product, string) -> bool) {
    match c
    case Equal(s) =>
      (key == "category" ==> p.category == s) && (key == "genderAgeCategory" ==> p.genderAgeCategory == s)
    case OnOrAfter(t) => key == "dateAdded" ==> p.dateAdded >= t
    case Above(x) => key == "rating" ==> p.rating > x
    case TextSearch(term) => textMatch(p, term)
  }

  predicate Matches(p: Product, f: Filter, textMatch: (Product, string) -> bool) {
    forall key :: key in f ==> Satisfies(p, key, f[key], textMatch)
  }

  /** The products of `order` (the store's natural order) that a filter selects, in that order. */
  function Select(order: seq<Id>, products: map<Id, Product>, f: Filter, textMatch: (Product, string) -> bool): (r: seq<Id>)
    requires forall i :: 0 <= i < |order| ==> order[i] in products
    ensures |r| <= |order|
    ensures forall x :: x in r <==> x in order && Matches(products[x], f, textMatch)
  {
    if order == [] then []
    else
      var init := order[..|order| - 1];
      var last := order[|order| - 1];
      assert forall x :: x in order <==> x in init || x == last;
      Select(init, products, f, textMatch) + (if Matches(products[last], f, textMatch) then [last] else [])
  }

  /** Selection distributes over concatenation, so it keeps the store's order: a product listed before another
      in `order` is listed before it in the result. */
  lemma {:induction false} SelectAppend(a: seq<Id>, b: seq<Id>, products: map<Id, Product>, f: Filter,
                                        textMatch: (Product, string) -> bool)
    requires forall i :: 0 <= i < |a| ==> a[i] in products
    requires forall i :: 0 <= i < |b| ==> b[i] in products
    ensures forall i :: 0 <= i < |a + b| ==> (a + b)[i] in products
    ensures Select(a + b, products, f, textMatch) == Select(a, products, f, textMatch) + Select(b, products, f, textMatch)
    decreases |b|
  {
    assert forall i :: 0 <= i < |a + b| ==> (a + b)[i] in products by {
      forall i | 0 <= i < |a + b| ensures (a + b)[i] in products {
        if i < |a| { assert (a + b)[i] == a[i]; } else { assert (a + b)[i] == b[i - |a|]; }
      }
    }
    if b == [] {
      assert a + b == a;
    } else {
      var init := b[..|b| - 1];
      var last := b[|b| - 1];
      assert (a + b)[..|a + b| - 1] == a + init;
      assert (a + b)[|a + b| - 1] == last;
      SelectAppend(a, init, products, f, textMatch);
    }
  }

  /** `10 * (Number(req.query.page || 0) - 1)`: a missing page is page 0. `page` is the parameter's numeric
      value, `None` when it is absent or empty. */
  function Skip(page: Option<int>): (skip: int)
    ensures page.None? ==> skip == -PageSize
    ensures skip >= 0 <==> page.GetOr(0) >= 1
    ensures skip % PageSize == 0 && skip / PageSize + 1 == page.GetOr(0)
  {
    PageSize * (page.GetOr(0) - 1)
  }

  /** The reply of a listing: the store refuses a negative skip, and an array, even an empty one, is always
      sent with 200. */
  function ListReply(selected: seq<Id>, skip: int): (r: Reply)
    ensures skip < 0 <==> r == Reply(500, Raised(NegativeSkip))
    ensures skip >= 0 ==> r == Reply(200, Items(Window(selected, skip, PageSize)))
  {
    if skip < 0 then Reply(500, Raised(NegativeSkip)) else Reply(200, Items(Window(selected, skip, PageSize)))
  }

  /** The query's category casts to an ObjectId, or there is no category condition: `find` casts the filter
      before the store sees the skip. */
  predicate CategoryCasts(category: Option<string>) {
    Filled(category) ==> IsObjectId(category.value)
  }

  /** `getProducts`: builds the filter key by key, then pages the selection. */
  method GetProducts(db: Db, order: seq<Id>, criteria: Option<string>, category: Option<string>,
                     page: Option<int>, now: int, textMatch: (Product, string) -> bool) returns (reply: Reply)
    requires forall i :: 0 <= i < |order| ==> order[i] in db.products
    ensures !CategoryCasts(category) ==> reply == Reply(500, Thrown("CastError"))
    ensures CategoryCasts(category) ==>
              reply == ListReply(Select(order, db.products, ListFilter(criteria, category, now), textMatch), Skip(page))
    ensures !reply.Is(404)
  {
    var query: Filter := map[];
    if Filled(criteria) {
      if Filled(category) {
        query := query["category" := Equal(category.value)];
      }
      if criteria.value == "newArrivals" {
        query := query["dateAdded" := OnOrAfter(now - TwoWeeks)];
      } else if criteria.value == "popular" {
        query := query["rating" := Above(PopularRating)];
      }
    } else if Filled(category) {
      query := map["category" := Equal(category.value)];
    }
    assert query == ListFilter(criteria, category, now);
    if Filled(category) && !IsObjectId(category.value) {
      return Reply(500, Thrown("CastError"));
    }
    var skip := PageSize * (page.GetOr(0) - 1);
    if skip < 0 {
      return Reply(500, Raised(NegativeSkip));
    }
    var products := Select(order, db.products, query, textMatch);
    return Reply(200, Items(Window(products, skip, PageSize)));
  }

  /** `searchProducts`: the category and gender conditions first, then the text clause merged over them. */
  method SearchProducts(db: Db, order: seq<Id>, q: Option<string>, category: Option<string>, gender: Option<Param>,
                        page: Option<int>, textMatch: (Product, string) -> bool) returns (reply: Reply)
    requires forall i :: 0 <= i < |order| ==> order[i] in db.products
    ensures !CategoryCasts(category) ==> reply == Reply(500, Thrown("CastError"))
    ensures CategoryCasts(category) ==>
              reply == ListReply(Select(order, db.products, SearchFilter(category, gender, q), textMatch), Skip(page))
    ensures !reply.Is(404)
  {
    var query: Filter := map[];
    if Filled(category) {
      query := map["category" := Equal(category.value)];
      if gender.Some? && gender.value.Text? {
        query := query["genderAgeCategory" := Equal(Lower(gender.value.s))];
      }
    } else if Truthy(gender) {
      query := map["genderAgeCategory" := Equal(if gender.value.Text? then Lower(gender.value.s) else "")];
    }
    if Filled(q) {
      query := query["$text" := TextSearch(q.value)];
    }
    assert query == SearchFilter(category, gender, q);
    if Filled(category) && !IsObjectId(category.value) {
      return Reply(500, Thrown("CastError"));
    }
    var skip := PageSize * (page.GetOr(0) - 1);
    if skip < 0 {
      return Reply(500, Raised(NegativeSkip));
    }
    var products := Select(order, db.products, query, textMatch);
    return Reply(200, Items(Window(products, skip, PageSize)));
  }

  /** As written, a request without a page asks the store to skip -10 documents and fails. */
  lemma DefaultPageFails(order: seq<Id>, products: map<Id, Product>, f: Filter, textMatch: (Product, string) -> bool)
    requires forall i :: 0 <= i < |order| ==> order[i] in products
    ensures Skip(None) == -10
    ensures ListReply(Select(order, products, f, textMatch), Skip(None)) == Reply(500, Raised(NegativeSkip))
  {
  }

  /** The evidently intended skip: pages count from 1, and a missing or zero page is the first. */
  function IntendedSkip(page: Option<int>): (skip: int)
    ensures page.None? || page == Some(0) || page == Some(1) ==> skip == 0
    ensures page.Some? && page.value >= 1 ==> skip == PageSize * (page.value - 1)
  {
    if page.None? || page.value == 0 then 0 else PageSize * (page.value - 1)
  }

  /** With the intended skip, a request without a page lists the first ten selected products, and every
      selected product is on the page its position gives. */
  lemma IntendedDefaultIsFirstPage(selected: seq<Id>, i: nat)
    requires i < |selected|
    ensures ListReply(selected, IntendedSkip(None)) == Reply(200, Items(PageItems(selected, 1)))
    ensures var r := ListReply(selected, IntendedSkip(Some(i / PageSize + 1)));
            r.Is(200) && r.body.ids[i % PageSize] == selected[i]
  {
    ItemOnItsPage(selected, i);
  }

  /** `getProductById`. */
  function GetProductById(products: map<Id, Product>, id: Id): (r: Reply)
    ensures !IsObjectId(id) ==> r == Reply(500, Thrown("CastError"))
    ensures IsObjectId(id) ==> (r.Is(404) <==> id !in products)
    ensures r.Is(200) ==> id in products
  {
    if !IsObjectId(id) then Reply(500, Thrown("CastError"))
    else if id !in products then Reply(404, Message(ProductNotFound))
    else Reply(200, Document)
  }
}
