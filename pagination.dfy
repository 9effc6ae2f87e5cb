/** Skip-and-limit paging over a listing in the store's natural order, as `find().skip(s).limit(n)` returns it,
    and the page count the admin listing reports. */
module Pagination {

  const PageSize := 10

  /** `listing.skip(skip).limit(limit)` for a non-negative skip. */
  function Window<T>(listing: seq<T>, skip: nat, limit: nat): (w: seq<T>)
    ensures |w| <= limit
    ensures |w| == if skip >= |listing| then 0 else if skip + limit <= |listing| then limit else |listing| - skip
    ensures forall i :: 0 <= i < |w| ==> w[i] == listing[skip + i]
  {
    if skip >= |listing| then [] else listing[skip..if skip + limit <= |listing| then skip + limit else |listing|]
  }

  /** `Math.ceil(total / PageSize)`. */
  function TotalPages(total: nat): (n: nat)
    ensures n * PageSize >= total && (n == 0 || (n - 1) * PageSize < total)
  {
    (total + PageSize - 1) / PageSize
  }

  /** The items of page `page` (counted from 1). */
  function PageItems<T>(listing: seq<T>, page: nat): seq<T>
    requires page >= 1
  {
    Window(listing, (page - 1) * PageSize, PageSize)
  }

  /** Every item of the listing is on exactly the page its position says, and that page is within the
      reported page count. */
  lemma ItemOnItsPage<T>(listing: seq<T>, i: nat)
    requires i < |listing|
    ensures var page := i / PageSize + 1;
            && page <= TotalPages(|listing|)
            && i % PageSize < |PageItems(listing, page)|
            && PageItems(listing, page)[i % PageSize] == listing[i]
  {
    var page := i / PageSize + 1;
    assert (page - 1) * PageSize + i % PageSize == i;
  }

  /** Pages 1 to the page count are never empty, and pages past it always are. */
  lemma EmptyExactlyPastTheEnd<T>(listing: seq<T>, page: nat)
    requires page >= 1
    ensures PageItems(listing, page) == [] <==> page > TotalPages(|listing|)
  {
    var n := TotalPages(|listing|);
    if page <= n {
      assert (page - 1) * PageSize <= (n - 1) * PageSize;
    } else {
      assert (page - 1) * PageSize >= n * PageSize;
    }
  }
}
