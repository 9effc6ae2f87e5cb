/** The product schema (src/models/product.ts): its bounds and enum, its defaults, the `productInitials`
    virtual and the pre-save hook that refreshes the review count. */
module ProductModel {
  import opened Common
  import opened Strings

  datatype Product = Product(
    name: string,
    description: string,
    price: real,
    rating: real,
    colours: seq<string>,
    image: string,
    images: seq<string>,
    reviews: seq<Id>,
    numberOfReviews: int,
    sized: seq<string>,
    category: Id,
    genderAgeCategory: string,
    countInStock: int,
    dateAdded: int)

  const GenderAgeCategories: set<string> := {"men", "women", "unisex", "kids"}

  const MinStock := 0
  const MaxStock := 255

  /** The constraints `save()` checks beyond the presence of the required paths. */
  predicate ProductValid(p: Product) {
    p.genderAgeCategory in GenderAgeCategories && MinStock <= p.countInStock <= MaxStock
  }

  /** A product as `new Product({...})` builds it from the request fields. Rating, review list, review count
      and date are schema paths too: a body that names them sets them, and otherwise they take their defaults
      (0, empty, 0 and the current time). */
  function NewProduct(name: string, description: string, price: real, colours: seq<string>, image: string,
                      images: seq<string>, sized: seq<string>, category: Id, genderAgeCategory: string,
                      countInStock: int, rating: Option<real>, reviews: Option<seq<Id>>,
                      numberOfReviews: Option<int>, dateAdded: Option<int>, now: int): (p: Product)
    ensures rating.None? ==> p.rating == 0.0
    ensures reviews.None? ==> p.reviews == []
    ensures numberOfReviews.None? ==> p.numberOfReviews == 0
    ensures dateAdded.None? ==> p.dateAdded == now
    ensures rating.Some? ==> p.rating == rating.value
    ensures reviews.Some? ==> p.reviews == reviews.value
    ensures numberOfReviews.Some? ==> p.numberOfReviews == numberOfReviews.value
    ensures dateAdded.Some? ==> p.dateAdded == dateAdded.value
    ensures p.image == image && p.images == images && p.category == category
    ensures p.genderAgeCategory == genderAgeCategory && p.countInStock == countInStock
  {
    Product(name, description, price, rating.GetOr(0.0), colours, image, images, reviews.GetOr([]),
            numberOfReviews.GetOr(0), sized, category, genderAgeCategory, countInStock, dateAdded.GetOr(now))
  }

  /** The upper-cased first character of a word, or nothing for an empty word (`words[i] ? words[i][0] : ""`). */
  function FirstBit(words: seq<string>, i: nat): (r: string)
    ensures |r| <= 1
    ensures r != [] <==> i < |words| && words[i] != []
  {
    if i < |words| && words[i] != [] then [words[i][0]] else []
  }

  /** The `productInitials` virtual. */
  function Initials(name: string): (r: string)
    ensures |r| <= 2
  {
    var words := Split(name, ' ');
    Upper(FirstBit(words, 0) + FirstBit(words, 1))
  }

  /** A reference reading of the virtual that does not split: the first character of the name unless it is a
      space, then the character after the first space unless that is a space too (or missing). */
  function InitialsByScan(name: string): string {
    var first := if name != [] && name[0] != ' ' then [UpperChar(name[0])] else [];
    if ' ' in name then
      var i := FirstIndexOf(name, ' ');
      first + (if i + 1 < |name| && name[i + 1] != ' ' then [UpperChar(name[i + 1])] else [])
    else first
  }

  /** The first part of a split starts with the string's first character, unless that is the separator. */
  lemma SplitHead(t: string, sep: char)
    ensures (Split(t, sep)[0] != []) <==> (t != [] && t[0] != sep)
    ensures Split(t, sep)[0] != [] ==> Split(t, sep)[0][0] == t[0]
  {
    if sep in t {
      var i := FirstIndexOf(t, sep);
      assert Split(t, sep)[0] == t[..i];
    }
  }

  lemma UpperAppend(a: string, b: string)
    ensures Upper(a + b) == Upper(a) + Upper(b)
  {
    forall k | 0 <= k < |a + b| ensures Upper(a + b)[k] == (Upper(a) + Upper(b))[k] {
      if k < |a| { assert (a + b)[k] == a[k]; } else { assert (a + b)[k] == b[k - |a|]; }
    }
  }

  lemma InitialsMatchesScan(name: string)
    ensures Initials(name) == InitialsByScan(name)
  {
    var words := Split(name, ' ');
    SplitHead(name, ' ');
    var a := FirstBit(words, 0);
    assert a == (if name != [] && name[0] != ' ' then [name[0]] else []);
    if ' ' in name {
      var i := FirstIndexOf(name, ' ');
      var rest := name[i + 1..];
      assert words == [name[..i]] + Split(rest, ' ');
      assert words[1] == Split(rest, ' ')[0];
      SplitHead(rest, ' ');
      var b := FirstBit(words, 1);
      assert b == (if i + 1 < |name| && name[i + 1] != ' ' then [name[i + 1]] else []);
      UpperAppend(a, b);
    } else {
      assert words == [name];
      assert FirstBit(words, 1) == [];
      assert a + [] == a;
    }
  }

  /** The pre-save hook. `average` stands for the mean of the reviews' ratings rounded to one decimal, which
      is floating-point work outside this model. */
  function PreSave(p: Product, average: real): (r: Product)
    ensures p.reviews != [] ==> r.numberOfReviews == |p.reviews| && r.rating == average
    ensures p.reviews == [] ==> r == p
    ensures r.reviews == p.reviews && r.images == p.images && r.countInStock == p.countInStock
  {
    if |p.reviews| > 0 then p.(rating := average, numberOfReviews := |p.reviews|) else p
  }

  /** Saving twice with the same reviews changes nothing more, and never disturbs the schema bounds. */
  lemma PreSaveIdempotent(p: Product, average: real)
    ensures PreSave(PreSave(p, average), average) == PreSave(p, average)
    ensures ProductValid(PreSave(p, average)) <==> ProductValid(p)
  {
  }
}
