/** The admin category handlers of src/controllers/admin/categories.ts: creation with an uploaded image,
    soft deletion by flag, and partial update. */
module AdminCategories {
  import opened Common
  import opened Records
  import opened Store
  import opened Strings
  import opened Media

  const NoFileFound := "No File Found"
  const CategoryNotFound := "Category Not Found"

  /** The request body paths the handlers read (multipart fields for creation, JSON for update). */
  datatype CategoryBody = CategoryBody(name: Option<string>, icon: Option<string>, colour: Option<string>,
                                       markedForDeletion: Option<bool>)

  /** `upload.fields([{ name: "image", maxCount: 1 }])`. */
  const ImageField := [FieldSpec("image", 1)]

  /** The category `new Category(req.body)` builds once `req.body.image` is set; `icon` is not a schema path. */
  function CategoryFromBody(body: CategoryBody, image: string): (c: Option<Category>)
    ensures c.Some? <==> body.name.Some? && body.name.value != "" && image != ""
    ensures c.Some? ==> c.value.name == body.name.value && c.value.image == image
                        && c.value.colour == body.colour.GetOr(DefaultColour)
                        && (c.value.markedForDeletion <==> body.markedForDeletion == Some(true))
                        && CategoryValid(c.value)
  {
    if body.name.None? then None
    else
      var c := NewCategory(body.name.value, body.colour, image, body.markedForDeletion);
      if CategoryValid(c) then Some(c) else None
  }

  /** Everything after the upload: pick the first image, build the category, save it. `noImage` is the
      reply when there is no image file (this copy's 404, or the JavaScript copy's crash). */
  method SaveCategory(db: Db, u: Upload, body: CategoryBody, protocol: string, host: string, newId: Id,
                      noImage: Reply) returns (reply: Reply)
    requires newId !in db.categories
    modifies db`categories
    ensures FirstFile(u, "image").None? ==> reply == noImage && db.categories == old(db.categories)
    ensures FirstFile(u, "image").Some? ==>
              var c := CategoryFromBody(body, UploadUrl(protocol, host, FirstFile(u, "image").value));
              && (c.None? ==> reply == Reply(500, Thrown("ValidationError")) && db.categories == old(db.categories))
              && (c.Some? ==> reply == Reply(200, Fields({"message", "category"}))
                              && db.categories == old(db.categories)[newId := c.value])
  {
    var image := FirstFile(u, "image");
    if image.None? {
      return noImage;
    }
    var category := CategoryFromBody(body, UploadUrl(protocol, host, image.value));
    if category.None? {
      return Reply(500, Thrown("ValidationError"));
    }
    db.categories := db.categories[newId := category.value];
    return Reply(200, Fields({"message", "category"}));
  }

  /** `createCategory`: an upload error is reported with its code and field and stores nothing; a request
      without an image gets 404 and stores no category. */
  method CreateCategory(db: Db, req: UploadRequest, body: CategoryBody, protocol: string, host: string,
                        uuidOf: nat -> string, newId: Id) returns (reply: Reply)
    requires newId !in db.categories
    modifies db`categories, db`uploads
    ensures var u := ProcessUpload(ImageField, req, uuidOf);
            && (u.Refused? ==> reply == Reply(500, UploadFailure(u.error.code, UploadErrorText(u.error)))
                               && db.categories == old(db.categories) && db.uploads == old(db.uploads))
            && (!u.Refused? && FirstFile(u, "image").None? ==>
                  reply == Reply(404, Message(NoFileFound)) && db.categories == old(db.categories))
            && (FirstFile(u, "image").Some? ==>
                  var c := CategoryFromBody(body, UploadUrl(protocol, host, FirstFile(u, "image").value));
                  && (c.Some? ==> reply.Is(200) && db.categories == old(db.categories)[newId := c.value])
                  && (c.None? ==> reply.Is(500) && db.categories == old(db.categories)))
    ensures db.uploads == if ProcessUpload(ImageField, req, uuidOf).Uploaded?
                          then old(db.uploads) + Names(ProcessUpload(ImageField, req, uuidOf).files)
                          else old(db.uploads)
  {
    var u := RunUpload(db, ImageField, req, uuidOf);
    if u.Refused? {
      return Reply(500, UploadFailure(u.error.code, UploadErrorText(u.error)));
    }
    reply := SaveCategory(db, u, body, protocol, host, newId, Reply(404, Message(NoFileFound)));
  }

  /** The stored URL of a new category names the file the upload wrote. */
  lemma CreatedImageIsStored(db: Db, req: UploadRequest, uuidOf: nat -> string, protocol: string, host: string)
    requires req.Multipart? && |req.parts| == 1 && req.parts[0].field == "image"
    requires ProcessUpload(ImageField, req, uuidOf).Uploaded?
    requires '/' !in req.parts[0].originalname && '/' !in uuidOf(0)
    ensures var u := ProcessUpload(ImageField, req, uuidOf);
            && FirstFile(u, "image").Some?
            && FirstFile(u, "image").value in Names(u.files)
            && Basename(UploadUrl(protocol, host, FirstFile(u, "image").value)) == FirstFile(u, "image").value
  {
    var u := ProcessUpload(ImageField, req, uuidOf);
    assert PartStored(ImageField, req.parts, uuidOf, u.files, 0);
    var name := StoredName(req.parts[0].originalname, uuidOf(0), req.parts[0].mimetype);
    assert u.files == [StoredFile("image", name)];
    assert FilesOf(u.files, "image") == [name] by {
      assert u.files[..0] == [];
    }
    UrlNamesItsFile(protocol, host, req.parts[0].originalname, uuidOf(0), req.parts[0].mimetype);
  }

  /** The category with its deletion flag set; nothing else about it changes. */
  function Flagged(c: Category): (f: Category)
    ensures f.markedForDeletion && f.(markedForDeletion := c.markedForDeletion) == c
  {
    c.(markedForDeletion := true)
  }

  /** Flagging twice is flagging once. */
  lemma FlaggedIdempotent(c: Category)
    ensures Flagged(Flagged(c)) == Flagged(c)
  {
  }

  /** `deleteCategory`: a soft delete. The document stays, with its flag set; the save re-runs the required
      validators, so a category whose name an update emptied cannot be flagged. */
  method DeleteCategory(db: Db, id: Id) returns (reply: Reply)
    modifies db`categories
    ensures !IsObjectId(id) ==> reply == Reply(500, Thrown("CastError")) && db.categories == old(db.categories)
    ensures IsObjectId(id) && id !in old(db.categories) ==>
              reply == Reply(404, Message(CategoryNotFound)) && db.categories == old(db.categories)
    ensures IsObjectId(id) && id in old(db.categories) && !CategoryValid(old(db.categories)[id]) ==>
              reply == Reply(500, Thrown("ValidationError")) && db.categories == old(db.categories)
    ensures IsObjectId(id) && id in old(db.categories) && CategoryValid(old(db.categories)[id]) ==>
              reply == Reply(204, NoContent) && db.categories == old(db.categories)[id := Flagged(old(db.categories)[id])]
    ensures db.categories.Keys == old(db.categories).Keys
  {
    if !IsObjectId(id) {
      return Reply(500, Thrown("CastError"));
    }
    if id !in db.categories {
      return Reply(404, Message(CategoryNotFound));
    }
    var category := db.categories[id];
    category := category.(markedForDeletion := true);
    if !CategoryValid(category) {
      return Reply(500, Thrown("ValidationError"));
    }
    db.categories := db.categories[id := category];
    return Reply(204, NoContent);
  }

  /** The collection after a successful soft delete. */
  function SoftDeleted(categories: map<Id, Category>, id: Id): (r: map<Id, Category>)
    requires id in categories
    ensures r.Keys == categories.Keys && r[id].markedForDeletion
    ensures forall k :: k in r && k != id ==> r[k] == categories[k]
  {
    categories[id := Flagged(categories[id])]
  }

  /** A second soft delete of the same category leaves the collection as the first left it. */
  lemma {:induction false} SoftDeleteIdempotent(categories: map<Id, Category>, id: Id)
    requires id in categories
    ensures SoftDeleted(SoftDeleted(categories, id), id) == SoftDeleted(categories, id)
  {
    FlaggedIdempotent(categories[id]);
  }

  /** `findByIdAndUpdate(id, { name, icon, colour })`: absent keys are dropped, `icon` is not a schema path,
      and no validator runs. */
  function Updated(c: Category, body: CategoryBody): (r: Category)
    ensures r.image == c.image && r.markedForDeletion == c.markedForDeletion
    ensures r.name == body.name.GetOr(c.name) && r.colour == body.colour.GetOr(c.colour)
  {
    c.(name := body.name.GetOr(c.name), colour := body.colour.GetOr(c.colour))
  }

  /** `updateCategory`: only the name and the colour can change. */
  method UpdateCategory(db: Db, id: Id, body: CategoryBody) returns (reply: Reply)
    modifies db`categories
    ensures !IsObjectId(id) ==> reply == Reply(500, Thrown("CastError")) && db.categories == old(db.categories)
    ensures IsObjectId(id) && id !in old(db.categories) ==>
              reply == Reply(404, Message(CategoryNotFound)) && db.categories == old(db.categories)
    ensures IsObjectId(id) && id in old(db.categories) ==>
              reply == Reply(200, Fields({"message", "category"}))
              && db.categories == old(db.categories)[id := Updated(old(db.categories)[id], body)]
  {
    if !IsObjectId(id) {
      return Reply(500, Thrown("CastError"));
    }
    if id !in db.categories {
      return Reply(404, Message(CategoryNotFound));
    }
    db.categories := db.categories[id := Updated(db.categories[id], body)];
    return Reply(200, Fields({"message", "category"}));
  }

  /** An update never clears the deletion flag, so a soft-deleted category stays scheduled for the sweep. */
  lemma UpdateKeepsFlag(c: Category, body: CategoryBody)
    ensures Updated(Flagged(c), body).markedForDeletion
  {
  }
}
