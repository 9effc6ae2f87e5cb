/** The admin product handlers of src/controllers/admin/products.ts: paged listing, count, creation with a
    main image and a gallery, editing with a capped gallery, removal of gallery images, and the ordered
    cascade of a product deletion. */
module AdminProducts {
  import opened Common
  import opened Strings
  import opened Records
  import opened ProductModel
  import opened Store
  import opened Media
  import opened Pagination

  const ProductsNotFound := "Products not found"
  const CouldNotCount := "Could not count products!"
  const CategoryNotFound := "Category not found"
  const CategoryFlagged := "Category marked for deletion, you can not add product to it"
  const NoFileFound := "No File Found"
  const ProductNotFound := "Product not found"
  const InvalidRequest := "Invalid request data"
  const ImagesNotFound := "One or more images not found"
  const ImagesNotDeleted := "Failed to delete images"
  const InvalidProduct := "Invalid Product"
  const ProductDeleted := "Product deleted successfully"
  const ImagesDeleted := "Images deleted successfully"
  /** The store's refusal of a negative `skip`. */
  const NegativeSkip := "BadValue"
  /** Any other error the store raises. */
  const StoreError := "StoreError"
  /** The largest gallery. */
  const GalleryMax := 10

  /** `Number(req.query.page) || 1`. `page` is the parameter's numeric value, `None` when it is absent or
      not a number. */
  function PageNumber(page: Option<int>): (n: int)
    ensures n != 0
    ensures page.None? || page == Some(0) ==> n == 1
    ensures page.Some? && page.value != 0 ==> n == page.value
  {
    if page.None? || page.value == 0 then 1 else page.value
  }

  /** The reply of a paged listing of `listing` (all products in the store's natural order) at page `n`. */
  function PageReply(listing: seq<Id>, n: int): (r: Reply)
    ensures n < 1 ==> r == Reply(500, Raised(NegativeSkip))
    ensures n >= 1 ==> (r.Is(404) <==> n > TotalPages(|listing|))
    ensures r.Is(200) ==> r.body.Page? && r.body.ids == PageItems(listing, n) && r.body.currentPage == n
                          && r.body.totalPages == TotalPages(|listing|) && r.body.total == |listing|
    ensures r.Is(500) || r.Is(404) || r.Is(200)
  {
    if n < 1 then Reply(500, Raised(NegativeSkip))
    else
      EmptyExactlyPastTheEnd(listing, n);
      var items := PageItems(listing, n);
      if items == [] then Reply(404, Message(ProductsNotFound))
      else Reply(200, Page(items, n, TotalPages(|listing|), |listing|))
  }

  /** `getProducts`: a missing, zero or non-numeric page means page 1. */
  function GetProducts(listing: seq<Id>, page: Option<int>): (r: Reply)
    ensures page.Some? && page.value < 0 ==> r == Reply(500, Raised(NegativeSkip))
    ensures page.None? || page.value >= 0 ==>
              var n := if page.GetOr(0) == 0 then 1 else page.value;
              && (r.Is(404) <==> n > TotalPages(|listing|))
              && (r.Is(200) ==> r.body == Page(PageItems(listing, n), n, TotalPages(|listing|), |listing|))
    ensures r.Is(500) || r.Is(404) || r.Is(200)
  {
    PageReply(listing, PageNumber(page))
  }

  /** Every product is listed by some page of the admin listing, at the position its order gives. */
  lemma EveryProductListed(listing: seq<Id>, i: nat)
    requires i < |listing|
    ensures var r := GetProducts(listing, Some(i / PageSize + 1));
            r.Is(200) && r.body.ids[i % PageSize] == listing[i]
  {
    ItemOnItsPage(listing, i);
  }

  /** A request without a page shows the first ten products. */
  lemma DefaultIsFirstPage(listing: seq<Id>)
    requires listing != []
    ensures GetProducts(listing, None) == Reply(200, Page(Window(listing, 0, PageSize), 1, TotalPages(|listing|), |listing|))
  {
  }

  /** `getProductsCount`. */
  function GetProductsCount(products: map<Id, Product>): (r: Reply)
    ensures r.Is(500) <==> |products| == 0
    ensures r.Is(200) ==> r.body == CountOf(|products|, true)
  {
    CountReply(|products|, CouldNotCount, true)
  }

  /** The product fields a request body may carry (`new Product(req.body)` and `findByIdAndUpdate` read them
      as given). */
  datatype ProductBody = ProductBody(
    name: Option<string>, description: Option<string>, price: Option<real>,
    colours: Option<seq<string>>, sized: Option<seq<string>>, category: Option<Id>,
    genderAgeCategory: Option<string>, countInStock: Option<int>,
    image: Option<string>, images: Option<seq<string>>,
    rating: Option<real>, reviews: Option<seq<Id>>, numberOfReviews: Option<int>, dateAdded: Option<int>)

  /** The body's reference paths cast to ObjectIds: the category and every review id. */
  predicate CastsIds(b: ProductBody) {
    && (b.category.Some? ==> IsObjectId(b.category.value))
    && (b.reviews.Some? ==> forall i :: 0 <= i < |b.reviews.value| ==> IsObjectId(b.reviews.value[i]))
  }

  /** `new Product(body).save()`: `None` when a required path is missing, a reference does not cast, or a bound
      or the enum fails. The body may set rating, reviews, review count and date like any other path; the
      pre-save hook then replaces rating and count when there are reviews (`average` is their mean rating). */
  function ProductFromBody(b: ProductBody, now: int, average: real): (p: Option<Product>)
    ensures p.Some? <==> Filled(b.name) && Filled(b.description) && b.price.Some? && Filled(b.image)
                         && b.category.Some? && b.genderAgeCategory.Some? && b.genderAgeCategory.value in GenderAgeCategories
                         && b.countInStock.Some? && MinStock <= b.countInStock.value <= MaxStock && CastsIds(b)
    ensures p.Some? ==> && ProductValid(p.value) && p.value.image == b.image.value
                        && p.value.images == b.images.GetOr([]) && p.value.category == b.category.value
                        && p.value.reviews == b.reviews.GetOr([]) && p.value.dateAdded == b.dateAdded.GetOr(now)
    ensures p.Some? && b.reviews.GetOr([]) != [] ==>
              p.value.rating == average && p.value.numberOfReviews == |b.reviews.value|
    ensures p.Some? && b.reviews.GetOr([]) == [] ==>
              p.value.rating == b.rating.GetOr(0.0) && p.value.numberOfReviews == b.numberOfReviews.GetOr(0)
  {
    if Filled(b.name) && Filled(b.description) && b.price.Some? && Filled(b.image) && b.category.Some?
       && b.genderAgeCategory.Some? && b.countInStock.Some? && CastsIds(b)
    then
      var p := NewProduct(b.name.value, b.description.value, b.price.value, b.colours.GetOr([]), b.image.value,
                          b.images.GetOr([]), b.sized.GetOr([]), b.category.value, b.genderAgeCategory.value,
                          b.countInStock.value, b.rating, b.reviews, b.numberOfReviews, b.dateAdded, now);
      PreSaveIdempotent(p, average);
      if ProductValid(p) then Some(PreSave(p, average)) else None
    else None
  }

  /** `Category.findById(body.category)` and the two checks after it: `None` when the category may take
      products, otherwise the reply. */
  function CategoryCheck(categories: map<Id, Category>, id: Option<Id>): (r: Option<Reply>)
    ensures r.None? <==> id.Some? && IsObjectId(id.value) && id.value in categories && !categories[id.value].markedForDeletion
    ensures r.Some? ==> r.value in {Reply(404, Message(CategoryNotFound)), Reply(404, Message(CategoryFlagged)),
                                    Reply(500, Thrown("CastError"))}
  {
    if id.None? then Some(Reply(404, Message(CategoryNotFound)))
    else if !IsObjectId(id.value) then Some(Reply(500, Thrown("CastError")))
    else if id.value !in categories then Some(Reply(404, Message(CategoryNotFound)))
    else if categories[id.value].markedForDeletion then Some(Reply(404, Message(CategoryFlagged)))
    else None
  }

  /** The public URLs of stored files, in order. */
  function Urls(names: seq<string>, protocol: string, host: string): (urls: seq<string>)
    ensures |urls| == |names| && forall i :: 0 <= i < |names| ==> urls[i] == UploadUrl(protocol, host, names[i])
  {
    seq(|names|, i requires 0 <= i < |names| => UploadUrl(protocol, host, names[i]))
  }

  /** The loop that pushes one URL per gallery file. */
  method CollectUrls(names: seq<string>, protocol: string, host: string) returns (paths: seq<string>)
    ensures paths == Urls(names, protocol, host)
  {
    paths := [];
    var i := 0;
    while i < |names|
      invariant 0 <= i <= |names|
      invariant paths == Urls(names[..i], protocol, host)
    {
      paths := paths + [UploadUrl(protocol, host, names[i])];
      i := i + 1;
    }
    assert names[..|names|] == names;
  }

  /** `upload.fields([{ name: "image", maxCount: 1 }, { name: "images", maxCount: 10 }])`. */
  const ProductFields := [FieldSpec("image", 1), FieldSpec("images", GalleryMax)]

  /** The files the upload stored for a field (none when the middleware did not run). */
  function Stored(u: Upload, field: string): seq<string> {
    if u.Uploaded? then FilesOf(u.files, field) else []
  }

  /** The body `addProduct` saves: the main image's URL, and the gallery's URLs in upload order when there is
      a gallery. */
  function WithUploads(body: ProductBody, image: string, u: Upload, protocol: string, host: string): (b: ProductBody)
    ensures b.image == Some(UploadUrl(protocol, host, image))
    ensures Stored(u, "images") != [] ==> b.images == Some(Urls(Stored(u, "images"), protocol, host))
    ensures Stored(u, "images") == [] ==> b.images == body.images
    ensures b.(image := body.image, images := body.images) == body
  {
    var gallery := Urls(Stored(u, "images"), protocol, host);
    body.(image := Some(UploadUrl(protocol, host, image)),
          images := if |gallery| > 0 then Some(gallery) else body.images)
  }

  /** `addProduct`: the upload runs first; then the category must exist and not be flagged, and the main
      image must be there, before anything is saved. */
  method AddProduct(db: Db, req: UploadRequest, body: ProductBody, protocol: string, host: string,
                    uuidOf: nat -> string, now: int, average: real, newId: Id) returns (reply: Reply)
    requires newId !in db.products
    modifies db`products, db`uploads
    ensures var u := ProcessUpload(ProductFields, req, uuidOf);
            var check := CategoryCheck(old(db.categories), body.category);
            && (u.Refused? ==> reply == Reply(500, UploadFailure(u.error.code, UploadErrorText(u.error)))
                               && db.products == old(db.products))
            && (!u.Refused? && check.Some? ==> reply == check.value && db.products == old(db.products))
            && (!u.Refused? && check.None? && FirstFile(u, "image").None? ==>
                  reply == Reply(404, Message(NoFileFound)) && db.products == old(db.products))
            && (!u.Refused? && check.None? && FirstFile(u, "image").Some? ==>
                  var p := ProductFromBody(WithUploads(body, FirstFile(u, "image").value, u, protocol, host), now, average);
                  && (p.Some? ==> reply == Reply(201, Document) && db.products == old(db.products)[newId := p.value])
                  && (p.None? ==> reply == Reply(500, Thrown("ValidationError")) && db.products == old(db.products)))
    ensures db.uploads == if ProcessUpload(ProductFields, req, uuidOf).Uploaded?
                          then old(db.uploads) + Names(ProcessUpload(ProductFields, req, uuidOf).files)
                          else old(db.uploads)
  {
    var u := RunUpload(db, ProductFields, req, uuidOf);
    if u.Refused? {
      return Reply(500, UploadFailure(u.error.code, UploadErrorText(u.error)));
    }
    var check := CategoryCheck(db.categories, body.category);
    if check.Some? {
      return check.value;
    }
    var image := FirstFile(u, "image");
    if image.None? {
      return Reply(404, Message(NoFileFound));
    }
    var b := body.(image := Some(UploadUrl(protocol, host, image.value)));
    var imagePaths := CollectUrls(Stored(u, "images"), protocol, host);
    if |imagePaths| > 0 {
      b := b.(images := Some(imagePaths));
    }
    var product := ProductFromBody(b, now, average);
    if product.None? {
      return Reply(500, Thrown("ValidationError"));
    }
    db.products := db.products[newId := product.value];
    return Reply(201, Document);
  }

  /** A created product keeps its gallery in upload order, with at most ten images. */
  lemma AddedGalleryInOrder(body: ProductBody, image: string, req: UploadRequest, uuidOf: nat -> string,
                            protocol: string, host: string, now: int, average: real)
    requires ProcessUpload(ProductFields, req, uuidOf).Uploaded?
    requires Stored(ProcessUpload(ProductFields, req, uuidOf), "images") != []
    requires ProductFromBody(WithUploads(body, image, ProcessUpload(ProductFields, req, uuidOf), protocol, host), now, average).Some?
    ensures var u := ProcessUpload(ProductFields, req, uuidOf);
            var p := ProductFromBody(WithUploads(body, image, u, protocol, host), now, average).value;
            && p.images == Urls(FilesOf(u.files, "images"), protocol, host)
            && |p.images| <= GalleryMax
  {
    UploadRespectsMaxCount(ProductFields, req, uuidOf, "images");
  }

  /** `findByIdAndUpdate(id, body)`: every path present in the body overwrites the stored one. No hook runs, so
      a body may set rating, reviews and review count directly. */
  function Edited(p: Product, b: ProductBody): (r: Product)
    ensures r.reviews == b.reviews.GetOr(p.reviews) && r.rating == b.rating.GetOr(p.rating)
    ensures r.numberOfReviews == b.numberOfReviews.GetOr(p.numberOfReviews) && r.dateAdded == b.dateAdded.GetOr(p.dateAdded)
    ensures r.images == b.images.GetOr(p.images) && r.image == b.image.GetOr(p.image)
    ensures r.category == b.category.GetOr(p.category) && r.countInStock == b.countInStock.GetOr(p.countInStock)
    ensures r.name == b.name.GetOr(p.name) && r.genderAgeCategory == b.genderAgeCategory.GetOr(p.genderAgeCategory)
  {
    p.(name := b.name.GetOr(p.name), description := b.description.GetOr(p.description),
       price := b.price.GetOr(p.price), colours := b.colours.GetOr(p.colours), sized := b.sized.GetOr(p.sized),
       category := b.category.GetOr(p.category), genderAgeCategory := b.genderAgeCategory.GetOr(p.genderAgeCategory),
       countInStock := b.countInStock.GetOr(p.countInStock), image := b.image.GetOr(p.image),
       images := b.images.GetOr(p.images), rating := b.rating.GetOr(p.rating), reviews := b.reviews.GetOr(p.reviews),
       numberOfReviews := b.numberOfReviews.GetOr(p.numberOfReviews), dateAdded := b.dateAdded.GetOr(p.dateAdded))
  }

  /** A body that names no path leaves the product as it was. */
  lemma EditedEmptyBody(p: Product)
    ensures Edited(p, ProductBody(None, None, None, None, None, None, None, None, None, None, None, None, None, None)) == p
  {
  }

  /** Applying the same update twice is applying it once. */
  lemma EditedIdempotent(p: Product, b: ProductBody)
    ensures Edited(Edited(p, b), b) == Edited(p, b)
  {
  }

  /** Where a multi-step handler stands: it has answered, or it goes on with this body. */
  datatype Step = Stop(reply: Reply) | Go(body: ProductBody)

  /** The gallery upload's field: as many more files as the gallery has room for. */
  function GallerySpec(p: Product): seq<FieldSpec> {
    [FieldSpec("images", GalleryMax - |p.images|)]
  }

  /** After the gallery upload: new URLs are appended after the existing ones. */
  function GalleryStep(p: Product, body: ProductBody, u: Upload, protocol: string, host: string): (s: Step)
    ensures u.Refused? <==> s.Stop?
    ensures s.Go? && Stored(u, "images") != [] ==> s.body == body.(images := Some(p.images + Urls(Stored(u, "images"), protocol, host)))
    ensures s.Go? && Stored(u, "images") == [] ==> s.body == body
  {
    if u.Refused? then Stop(Reply(500, UploadFailure(u.error.code, UploadErrorText(u.error))))
    else
      var names := Stored(u, "images");
      if |names| > 0 then Go(body.(images := Some(p.images + Urls(names, protocol, host)))) else Go(body)
  }

  /** After the main-image upload: the image must be there. */
  function ImageStep(body: ProductBody, u: Upload, protocol: string, host: string): (s: Step)
    ensures s.Go? <==> !u.Refused? && FirstFile(u, "image").Some?
    ensures s.Go? ==> s.body == body.(image := Some(UploadUrl(protocol, host, FirstFile(u, "image").value)))
  {
    if u.Refused? then Stop(Reply(500, UploadFailure(u.error.code, UploadErrorText(u.error))))
    else match FirstFile(u, "image")
      case None => Stop(Reply(404, Message(NoFileFound)))
      case Some(name) => Go(body.(image := Some(UploadUrl(protocol, host, name))))
  }

  /** The steps of `editProduct` between the existence check and the update. The uploads run only when a
      category is given; the gallery one only when `body.images` is, the main one only when `body.image` is. */
  function PlanEdit(p: Product, body: ProductBody, categories: map<Id, Category>, gallery: Upload, image: Upload,
                    protocol: string, host: string): (s: Step)
    ensures !Filled(body.category) ==> s == Go(body)
    ensures Filled(body.category) && CategoryCheck(categories, body.category).Some? ==>
              s == Stop(CategoryCheck(categories, body.category).value)
    ensures s.Go? ==> s.body.(images := body.images, image := body.image) == body
  {
    if !Filled(body.category) then Go(body)
    else match CategoryCheck(categories, body.category)
      case Some(r) => Stop(r)
      case None =>
        var g := if body.images.Some? then GalleryStep(p, body, gallery, protocol, host) else Go(body);
        match g
        case Stop(r) => Stop(r)
        case Go(b) => if Filled(b.image) then ImageStep(b, image, protocol, host) else Go(b)
  }

  /** The gallery upload and the loop over its files. */
  method RunGallery(db: Db, p: Product, body: ProductBody, req: UploadRequest, uuidOf: nat -> string,
                    protocol: string, host: string) returns (s: Step)
    modifies db`uploads
    ensures s == GalleryStep(p, body, ProcessUpload(GallerySpec(p), req, uuidOf), protocol, host)
    ensures old(db.uploads) <= db.uploads
  {
    var gallery := RunUpload(db, GallerySpec(p), req, uuidOf);
    if gallery.Refused? {
      return Stop(Reply(500, UploadFailure(gallery.error.code, UploadErrorText(gallery.error))));
    }
    var names := Stored(gallery, "images");
    if |names| > 0 {
      var imagePaths := CollectUrls(names, protocol, host);
      return Go(body.(images := Some(p.images + imagePaths)));
    }
    return Go(body);
  }

  /** The main-image upload. */
  method RunImage(db: Db, body: ProductBody, req: UploadRequest, uuidOf: nat -> string, protocol: string, host: string)
    returns (s: Step)
    modifies db`uploads
    ensures s == ImageStep(body, ProcessUpload(ImageField, req, uuidOf), protocol, host)
    ensures old(db.uploads) <= db.uploads
  {
    var upload := RunUpload(db, ImageField, req, uuidOf);
    if upload.Refused? {
      return Stop(Reply(500, UploadFailure(upload.error.code, UploadErrorText(upload.error))));
    }
    var image := FirstFile(upload, "image");
    if image.None? {
      return Stop(Reply(404, Message(NoFileFound)));
    }
    return Go(body.(image := Some(UploadUrl(protocol, host, image.value))));
  }

  /** The steps of `editProduct` before the update, run against the store. */
  method RunEditSteps(db: Db, p: Product, body: ProductBody, galleryReq: UploadRequest, imageReq: UploadRequest,
                      protocol: string, host: string, galleryUuid: nat -> string, imageUuid: nat -> string)
    returns (s: Step)
    modifies db`uploads
    ensures s == PlanEdit(p, body, db.categories, ProcessUpload(GallerySpec(p), galleryReq, galleryUuid),
                          ProcessUpload(ImageField, imageReq, imageUuid), protocol, host)
    ensures old(db.uploads) <= db.uploads
  {
    if !Filled(body.category) {
      return Go(body);
    }
    var check := CategoryCheck(db.categories, body.category);
    if check.Some? {
      return Stop(check.value);
    }
    var b := body;
    if body.images.Some? {
      var g := RunGallery(db, p, body, galleryReq, galleryUuid, protocol, host);
      if g.Stop? {
        return g;
      }
      b := g.body;
    }
    if Filled(b.image) {
      s := RunImage(db, b, imageReq, imageUuid, protocol, host);
    } else {
      s := Go(b);
    }
  }

  /** `editProduct`. `galleryReq` and `imageReq` are what each of the two upload runs reads. */
  method EditProduct(db: Db, id: Id, body: ProductBody, galleryReq: UploadRequest, imageReq: UploadRequest,
                     protocol: string, host: string, galleryUuid: nat -> string, imageUuid: nat -> string)
    returns (reply: Reply)
    modifies db`products, db`uploads
    ensures !IsObjectId(id) || id !in old(db.products) ==>
              reply == Reply(404, Message(ProductNotFound)) && db.products == old(db.products)
    ensures IsObjectId(id) && id in old(db.products) ==>
              var p := old(db.products)[id];
              match PlanEdit(p, body, old(db.categories), ProcessUpload(GallerySpec(p), galleryReq, galleryUuid),
                             ProcessUpload(ImageField, imageReq, imageUuid), protocol, host)
              case Stop(r) => reply == r && db.products == old(db.products)
              case Go(b) =>
                if !CastsIds(b)
                then reply == Reply(500, Thrown("CastError")) && db.products == old(db.products)
                else reply == Reply(200, Document) && db.products == old(db.products)[id := Edited(p, b)]
    ensures old(db.uploads) <= db.uploads
  {
    if !IsObjectId(id) || id !in db.products {
      return Reply(404, Message(ProductNotFound));
    }
    var product := db.products[id];
    var s := RunEditSteps(db, product, body, galleryReq, imageReq, protocol, host, galleryUuid, imageUuid);
    if s.Stop? {
      return s.reply;
    }
    var b := s.body;
    if !CastsIds(b) {
      return Reply(500, Thrown("CastError"));
    }
    db.products := db.products[id := Edited(product, b)];
    return Reply(200, Document);
  }

  /** The image field of the main-image upload (`{ name: "image", maxCount: 1 }`). */
  const ImageField := [FieldSpec("image", 1)]

  /** An edit that uploads gallery files keeps the existing images first, in their order, and never lets a
      gallery of at most ten grow past ten. */
  lemma EditGalleryCapped(p: Product, body: ProductBody, categories: map<Id, Category>, galleryReq: UploadRequest,
                          galleryUuid: nat -> string, image: Upload, protocol: string, host: string)
    requires |p.images| <= GalleryMax
    requires var s := PlanEdit(p, body, categories, ProcessUpload(GallerySpec(p), galleryReq, galleryUuid), image, protocol, host);
             s.Go? && s.body.images != body.images
    ensures var s := PlanEdit(p, body, categories, ProcessUpload(GallerySpec(p), galleryReq, galleryUuid), image, protocol, host);
            && s.body.images.Some? && |s.body.images.value| <= GalleryMax
            && s.body.images.value[..|p.images|] == p.images
  {
    var u := ProcessUpload(GallerySpec(p), galleryReq, galleryUuid);
    assert Filled(body.category) && body.images.Some?;
    assert GalleryStep(p, body, u, protocol, host).Go?;
    assert u.Uploaded?;
    UploadRespectsMaxCount(GallerySpec(p), galleryReq, galleryUuid, "images");
    var added := Urls(Stored(u, "images"), protocol, host);
    assert (p.images + added)[..|p.images|] == p.images;
  }

  /** `$pull: { images: { $in: urls } }`: every listed URL leaves, the others stay in order. */
  function Pulled(images: seq<string>, urls: seq<string>): (r: seq<string>)
    ensures forall x :: x in r <==> x in images && x !in urls
    ensures |r| <= |images|
  {
    if images == [] then []
    else (if images[0] in urls then [] else [images[0]]) + Pulled(images[1..], urls)
  }

  /** Pulling works piecewise, so the images that stay keep their relative order. */
  lemma {:induction false} PulledAppend(a: seq<string>, b: seq<string>, urls: seq<string>)
    ensures Pulled(a + b, urls) == Pulled(a, urls) + Pulled(b, urls)
  {
    if a != [] {
      assert (a + b)[0] == a[0] && (a + b)[1..] == a[1..] + b;
      PulledAppend(a[1..], b, urls);
    } else {
      assert a + b == b;
    }
  }

  /** Pulling the same URLs twice removes nothing more. */
  lemma {:induction false} PulledIdempotent(images: seq<string>, urls: seq<string>)
    ensures Pulled(Pulled(images, urls), urls) == Pulled(images, urls)
  {
    if images != [] {
      PulledIdempotent(images[1..], urls);
      var head := if images[0] in urls then [] else [images[0]];
      PulledAppend(head, Pulled(images[1..], urls), urls);
      if images[0] !in urls {
        assert Pulled(head, urls) == [images[0]] + Pulled([], urls);
        assert head[1..] == [];
      }
    }
  }

  /** `deleteProductImages`. The files go first; any unlink error aborts before the document is touched,
      since ENOENT errors are named "Error" and are therefore never skipped. */
  method DeleteProductImages(db: Db, id: Id, urls: Option<seq<string>>) returns (reply: Reply)
    modifies db`products, db`uploads
    ensures !IsObjectId(id) || urls.None? ==>
              reply == Reply(400, Message(InvalidRequest)) && db.products == old(db.products) && db.uploads == old(db.uploads)
    ensures IsObjectId(id) && urls.Some? ==>
              var s := DeleteAll(urls.value, old(db.uploads), "ENOENT");
              && db.uploads == s.left
              && (s.error.Some? ==> db.products == old(db.products)
                                    && reply == Reply(if s.error.value.code == "ENOENT" then 404 else 500,
                                                      Message(if s.error.value.code == "ENOENT" then ImagesNotFound else ImagesNotDeleted)))
              && (s.error.None? && id !in old(db.products) ==>
                    reply == Reply(404, Message(ProductNotFound)) && db.products == old(db.products))
              && (s.error.None? && id in old(db.products) ==>
                    reply == Reply(200, Fields({"message", "remainingImages"}))
                    && db.products == old(db.products)[id := old(db.products)[id].(images := Pulled(old(db.products)[id].images, urls.value))])
    ensures reply.Is(200) ==> forall i :: 0 <= i < |urls.value| ==> Basename(urls.value[i]) in old(db.uploads)
  {
    if !IsObjectId(id) || urls.None? {
      return Reply(400, Message(InvalidRequest));
    }
    var error := DeleteImages(db, urls.value, "ENOENT");
    if error.Some? {
      if error.value.code == "ENOENT" {
        return Reply(404, Message(ImagesNotFound));
      }
      return Reply(500, Message(ImagesNotDeleted));
    }
    forall i | 0 <= i < |urls.value| ensures Basename(urls.value[i]) in old(db.uploads) {
      CleanDeleteFoundAll(urls.value, old(db.uploads), "ENOENT", i);
    }
    if id !in db.products {
      return Reply(404, Message(ProductNotFound));
    }
    var product := db.products[id];
    db.products := db.products[id := product.(images := Pulled(product.images, urls.value))];
    return Reply(200, Fields({"message", "remainingImages"}));
  }

  /** The ids `Review.deleteMany({ _id: { $in: reviews } })` removes. */
  function ReviewIds(p: Product): set<Id> {
    set i | 0 <= i < |p.reviews| :: p.reviews[i]
  }

  /** The files a product's deletion unlinks, and what that leaves: nothing is unlinked when the product has
      neither a main image nor a gallery. */
  function ProductFiles(p: Product, files: set<string>, skip: string): Sweep {
    if p.image != "" || |p.images| > 0 then DeleteAll(p.images + [p.image], files, skip) else Sweep(files, None)
  }

  /** The first step of `deleteProduct`. */
  method DeleteProductFiles(db: Db, p: Product, skip: string) returns (error: Option<FsError>)
    requires skip != FsErrorName
    modifies db`uploads
    ensures Sweep(db.uploads, error) == ProductFiles(p, old(db.uploads), skip)
    ensures error.None? ==> forall i :: 0 <= i < |p.images| ==> Basename(p.images[i]) !in db.uploads
  {
    error := None;
    if p.image != "" || |p.images| > 0 {
      error := DeleteImages(db, p.images + [p.image], skip);
      if error.None? {
        forall i | 0 <= i < |p.images| ensures Basename(p.images[i]) !in db.uploads {
          assert (p.images + [p.image])[i] == p.images[i];
          CleanDeleteFoundAll(p.images + [p.image], old(db.uploads), skip, i);
        }
      }
    }
  }

  /** `deleteProduct`: the image files, then the product's reviews, then the product. `fault` numbers the
      store call that throws: 1 the lookup, 2 the review deletion, 3 the product deletion. `skip` is the
      error name passed to `deleteImages` ("" here, nothing at all in the JavaScript copy). */
  method DeleteProduct(db: Db, id: Id, fault: Fault, skip: string) returns (reply: Reply)
    requires skip != FsErrorName
    modifies db`products, db`reviews, db`uploads
    ensures !IsObjectId(id) ==> reply == Reply(400, Message(InvalidProduct))
    ensures !IsObjectId(id) || FailsAt(fault, 1) || id !in old(db.products) ==>
              db.products == old(db.products) && db.reviews == old(db.reviews) && db.uploads == old(db.uploads)
    ensures IsObjectId(id) && !FailsAt(fault, 1) && id !in old(db.products) ==> reply == Reply(404, Message(ProductNotFound))
    ensures IsObjectId(id) && !FailsAt(fault, 1) && id in old(db.products) ==>
              var p := old(db.products)[id];
              var files := ProductFiles(p, old(db.uploads), skip);
              && db.uploads == files.left
              && (files.error.Some? || FailsAt(fault, 2) ==> reply.Is(500) && db.reviews == old(db.reviews) && db.products == old(db.products))
              && (files.error.None? && !FailsAt(fault, 2) ==> db.reviews == Without(old(db.reviews), ReviewIds(p)))
              && (files.error.None? && !FailsAt(fault, 2) && FailsAt(fault, 3) ==> reply.Is(500) && db.products == old(db.products))
              && (files.error.None? && !FailsAt(fault, 2) && !FailsAt(fault, 3) ==>
                    reply == Reply(200, Message(ProductDeleted)) && db.products == old(db.products) - {id})
    ensures id in old(db.products) && id !in db.products ==>
              && (forall r :: r in old(db.products)[id].reviews ==> r !in db.reviews)
              && (forall i :: 0 <= i < |old(db.products)[id].images| ==> Basename(old(db.products)[id].images[i]) !in db.uploads)
  {
    if !IsObjectId(id) {
      return Reply(400, Message(InvalidProduct));
    }
    if FailsAt(fault, 1) {
      return Reply(500, Raised(StoreError));
    }
    if id !in db.products {
      return Reply(404, Message(ProductNotFound));
    }
    var product := db.products[id];
    var error := DeleteProductFiles(db, product, skip);
    if error.Some? {
      return Reply(500, Raised(error.value.code));
    }
    if FailsAt(fault, 2) {
      return Reply(500, Raised(StoreError));
    }
    db.reviews := Without(db.reviews, ReviewIds(product));
    if FailsAt(fault, 3) {
      return Reply(500, Raised(StoreError));
    }
    db.products := db.products - {id};
    return Reply(200, Message(ProductDeleted));
  }
}
