/** controllers/admin/products.js, the JavaScript copy of the admin product handlers. Its outer catch blocks
    test an undeclared `err`, so every error that reaches them throws again and the request is never answered;
    `editProduct` calls `Product.findByIdUpdate`, which does not exist, so no edit is ever stored. */
module AdminProductsJs {
  import opened Common
  import opened Strings
  import opened Records
  import opened ProductModel
  import opened Store
  import opened Media
  import opened Pagination
  import AdminProducts

  /** `req.query.page || 1`: only a missing or empty parameter falls back to 1; a "0" is kept. */
  function PageNumber(page: Option<int>): (n: int)
    ensures page.None? ==> n == 1
    ensures page.Some? ==> n == page.value
  {
    if page.None? then 1 else page.value
  }

  /** `getProducts`; `currentPage` is `parseInt(page)`, the same number for a numeric parameter. */
  function GetProducts(listing: seq<Id>, page: Option<int>): (r: Reply)
    ensures page != Some(0) ==> r == AdminProducts.GetProducts(listing, page)
    ensures page == Some(0) ==> r == Reply(500, Raised(AdminProducts.NegativeSkip))
  {
    AdminProducts.PageReply(listing, PageNumber(page))
  }

  /** Page "0" is page 1 in the typed copy but a failed query here. */
  lemma ZeroPageDiffers(listing: seq<Id>)
    requires listing != []
    ensures GetProducts(listing, Some(0)).Is(500)
    ensures AdminProducts.GetProducts(listing, Some(0)).Is(200)
  {
    EmptyExactlyPastTheEnd(listing, 1);
  }

  /** `getProductsCount`, the same answer. */
  function GetProductsCount(products: map<Id, Product>): (r: Reply)
    ensures r.Is(500) <==> |products| == 0
    ensures r == AdminProducts.GetProductsCount(products)
  {
    AdminProducts.GetProductsCount(products)
  }

  /** `addProduct`: a cast error on the category, a missing image field and a failed validation all end in
      the broken catch, unanswered. */
  method AddProduct(db: Db, req: UploadRequest, body: AdminProducts.ProductBody, protocol: string, host: string,
                    uuidOf: nat -> string, now: int, average: real, newId: Id) returns (reply: Reply)
    requires newId !in db.products
    modifies db`products, db`uploads
    ensures var u := ProcessUpload(AdminProducts.ProductFields, req, uuidOf);
            var check := AdminProducts.CategoryCheck(old(db.categories), body.category);
            && (u.Refused? ==> reply == Reply(500, UploadFailure(u.error.code, UploadErrorText(u.error)))
                               && db.products == old(db.products))
            && (!u.Refused? && check.Some? ==>
                  db.products == old(db.products) && reply == (if check.value.Is(500) then NoReply else check.value))
            && (!u.Refused? && check.None? && FirstFile(u, "image").None? ==>
                  reply == NoReply && db.products == old(db.products))
            && (!u.Refused? && check.None? && FirstFile(u, "image").Some? ==>
                  var p := AdminProducts.ProductFromBody(
                             AdminProducts.WithUploads(body, FirstFile(u, "image").value, u, protocol, host), now, average);
                  && (p.Some? ==> reply == Reply(201, Document) && db.products == old(db.products)[newId := p.value])
                  && (p.None? ==> reply == NoReply && db.products == old(db.products)))
  {
    var u := RunUpload(db, AdminProducts.ProductFields, req, uuidOf);
    if u.Refused? {
      return Reply(500, UploadFailure(u.error.code, UploadErrorText(u.error)));
    }
    var check := AdminProducts.CategoryCheck(db.categories, body.category);
    if check.Some? {
      if check.value.Is(500) {
        return NoReply;
      }
      return check.value;
    }
    var image := FirstFile(u, "image");
    if image.None? {
      return NoReply;
    }
    var b := body.(image := Some(UploadUrl(protocol, host, image.value)));
    var imagePaths := AdminProducts.CollectUrls(AdminProducts.Stored(u, "images"), protocol, host);
    if |imagePaths| > 0 {
      b := b.(images := Some(imagePaths));
    }
    var product := AdminProducts.ProductFromBody(b, now, average);
    if product.None? {
      return NoReply;
    }
    db.products := db.products[newId := product.value];
    return Reply(201, Document);
  }

  /** `editProduct`: every path that gets as far as the update crashes, so the product never changes and the
      handler never answers 200. */
  method EditProduct(db: Db, id: Id, body: AdminProducts.ProductBody, galleryReq: UploadRequest,
                     imageReq: UploadRequest, protocol: string, host: string, galleryUuid: nat -> string,
                     imageUuid: nat -> string) returns (reply: Reply)
    modifies db`uploads
    ensures !IsObjectId(id) || id !in db.products ==> reply == Reply(404, Message(AdminProducts.ProductNotFound))
    ensures IsObjectId(id) && id in db.products && Filled(body.category)
            && AdminProducts.CategoryCheck(db.categories, body.category).Some? ==>
              var r := AdminProducts.CategoryCheck(db.categories, body.category).value;
              reply == if r.Is(500) then NoReply else r
    ensures reply.Reply? ==> reply.Is(404) || (reply.Is(500) && reply.body.UploadFailure?)
    ensures old(db.uploads) <= db.uploads
  {
    if !IsObjectId(id) || id !in db.products {
      return Reply(404, Message(AdminProducts.ProductNotFound));
    }
    if Filled(body.category) {
      var check := AdminProducts.CategoryCheck(db.categories, body.category);
      if check.Some? {
        if check.value.Is(500) {
          return NoReply;
        }
        return check.value;
      }
      var product := db.products[id];
      var b := body;
      if body.images.Some? {
        var gallery := RunUpload(db, AdminProducts.GallerySpec(product), galleryReq, galleryUuid);
        if gallery.Refused? {
          return Reply(500, UploadFailure(gallery.error.code, UploadErrorText(gallery.error)));
        }
        if gallery.Skipped? {
          return NoReply;
        }
        var names := FilesOf(gallery.files, "images");
        if |names| > 0 {
          var imagePaths := AdminProducts.CollectUrls(names, protocol, host);
          b := b.(images := Some(product.images + imagePaths));
        }
      }
      if Filled(b.image) {
        var upload := RunUpload(db, AdminProducts.ImageField, imageReq, imageUuid);
        if upload.Refused? {
          return Reply(500, UploadFailure(upload.error.code, UploadErrorText(upload.error)));
        }
        if FirstFile(upload, "image").None? {
          return NoReply;
        }
      }
    }
    return NoReply;
  }

  /** `deleteProductImages`, the same handler. */
  method DeleteProductImages(db: Db, id: Id, urls: Option<seq<string>>) returns (reply: Reply)
    modifies db`products, db`uploads
    ensures !IsObjectId(id) || urls.None? ==> reply == Reply(400, Message(AdminProducts.InvalidRequest))
    ensures IsObjectId(id) && urls.Some? && id in old(db.products) && reply.Is(200) ==>
              db.products == old(db.products)[id := old(db.products)[id].(images := AdminProducts.Pulled(old(db.products)[id].images, urls.value))]
    ensures reply.Is(200) ==> forall i :: 0 <= i < |urls.value| ==> Basename(urls.value[i]) in old(db.uploads)
  {
    reply := AdminProducts.DeleteProductImages(db, id, urls);
  }

  /** `deleteProduct`: `deleteImages` gets no error name, so no unlink error is skipped, as in the typed copy. */
  method DeleteProduct(db: Db, id: Id, fault: Fault) returns (reply: Reply)
    modifies db`products, db`reviews, db`uploads
    ensures !IsObjectId(id) ==> reply == Reply(400, Message(AdminProducts.InvalidProduct))
    ensures IsObjectId(id) && !FailsAt(fault, 1) && id in old(db.products) ==>
              var files := AdminProducts.ProductFiles(old(db.products)[id], old(db.uploads), "");
              files.error.Some? ==> reply.Is(500) && db.products == old(db.products) && db.reviews == old(db.reviews)
    ensures id in old(db.products) && id !in db.products ==>
              forall r :: r in old(db.products)[id].reviews ==> r !in db.reviews
  {
    reply := AdminProducts.DeleteProduct(db, id, fault, "");
  }
}
