/** controllers/admin/categories.js, the JavaScript copy of the category handlers. Only creation differs: it
    indexes `req.files.image[0]` without guarding, so a request without an image field crashes into the outer
    catch. */
module AdminCategoriesJs {
  import opened Common
  import opened Records
  import opened Store
  import opened Media
  import AdminCategories

  /** `createCategory`: no image is a 500 TypeError, not a 404. */
  method CreateCategory(db: Db, req: UploadRequest, body: AdminCategories.CategoryBody, protocol: string,
                        host: string, uuidOf: nat -> string, newId: Id) returns (reply: Reply)
    requires newId !in db.categories
    modifies db`categories, db`uploads
    ensures var u := ProcessUpload(AdminCategories.ImageField, req, uuidOf);
            && (u.Refused? ==> reply == Reply(500, UploadFailure(u.error.code, UploadErrorText(u.error)))
                               && db.categories == old(db.categories))
            && (!u.Refused? && FirstFile(u, "image").None? ==>
                  reply == Reply(500, Thrown("TypeError")) && db.categories == old(db.categories))
            && (FirstFile(u, "image").Some? ==>
                  var c := AdminCategories.CategoryFromBody(body, UploadUrl(protocol, host, FirstFile(u, "image").value));
                  && (c.Some? ==> reply.Is(200) && db.categories == old(db.categories)[newId := c.value])
                  && (c.None? ==> reply.Is(500) && db.categories == old(db.categories)))
  {
    var u := RunUpload(db, AdminCategories.ImageField, req, uuidOf);
    if u.Refused? {
      return Reply(500, UploadFailure(u.error.code, UploadErrorText(u.error)));
    }
    reply := AdminCategories.SaveCategory(db, u, body, protocol, host, newId, Reply(500, Thrown("TypeError")));
  }

  /** `deleteCategory`, the same soft delete. */
  method DeleteCategory(db: Db, id: Id) returns (reply: Reply)
    modifies db`categories
    ensures IsObjectId(id) && id !in old(db.categories) ==>
              reply == Reply(404, Message(AdminCategories.CategoryNotFound)) && db.categories == old(db.categories)
    ensures IsObjectId(id) && id in old(db.categories) && CategoryValid(old(db.categories)[id]) ==>
              reply == Reply(204, NoContent)
              && db.categories == AdminCategories.SoftDeleted(old(db.categories), id)
    ensures db.categories.Keys == old(db.categories).Keys
  {
    reply := AdminCategories.DeleteCategory(db, id);
  }

  /** `updateCategory`, the same partial update. */
  method UpdateCategory(db: Db, id: Id, body: AdminCategories.CategoryBody) returns (reply: Reply)
    modifies db`categories
    ensures IsObjectId(id) && id !in old(db.categories) ==>
              reply == Reply(404, Message(AdminCategories.CategoryNotFound)) && db.categories == old(db.categories)
    ensures IsObjectId(id) && id in old(db.categories) ==>
              reply.Is(200) && db.categories == old(db.categories)[id := AdminCategories.Updated(old(db.categories)[id], body)]
  {
    reply := AdminCategories.UpdateCategory(db, id, body);
  }
}
