# shooper-be core, modelled in Dafny

This project models the request handlers of the shooper-be e-commerce backend. That is an Express and
Mongoose service with a TypeScript tree under `src/` and an older plain-JavaScript copy of several files.
Every document collection is a map from id to record, held as a field of the class `Store.Db`. A handler
is a method that takes the store, reads and updates its fields, and returns the reply it sends.

These are modelled as parameters, because the model cannot compute them:
- hashing and token signing and verification (bcrypt, jsonwebtoken);
- uuids and `Math.random()`;
- the clock and mail delivery.

Each core source file has its own module:

| module | source |
|---|---|
| `OrderModel`, `ProductModel`, `Records` | the order, product, user, token and category schemas |
| `AdminOrders`, `AdminOrdersJs` | the order status machine, the order delete and the order count |
| `Otp`, `TokenStore`, `Auth`, `AuthJs` | registration, login sessions, the password-reset OTP and logout |
| `AccessControl` | the token gate: exempt paths and the revocation test |
| `TokenRefresh` | the error handler that renews an access token |
| `AdminCategories`, `AdminCategoriesJs` | category creation, soft delete and update |
| `CategorySweep` | the nightly purge of flagged categories |
| `Pagination`, `AdminProducts`, `AdminProductsJs` | paging, products, galleries and the product cascade |
| `Catalogue` | the public product filters |
| `AdminUsers`, `AdminUsersJs`, `Users` | the user cascade delete, the user projections and the contact update |
| `Media` | the upload allow-list, stored file names, upload limits and `deleteImages` |

The plain-JavaScript media helper (helpers/media_helper.js) has the same allow-list, file naming, limits
and `deleteImages` as the typed one, so the `Media` module stands for both.

`Common` and `Strings` hold the shared vocabulary: replies, options, and JavaScript's `replace`, `trim`,
`split` and `path.basename`.

Where a handler fails in a store step, the model takes a `fault` parameter that names the failing step.
This shows which earlier writes remain. A store call given an id that is not 24 hexadecimal digits
answers 500 with a CastError, as Mongoose does.

## Model

| member | source | states |
|---|---|---|
| OrderModel.NewOrder | src/models/order.ts:58-69 | A new order starts in "Pending" with history ["Pending"]; that order passes the enum validation and its history has no duplicates |
| OrderModel.StatusesAreDistinct | src/models/order.ts:2-14 | The status enum holds exactly eleven distinct strings |
| OrderModel.GuardLiteralsAreNotStatuses | src/models/order.ts:3-7 | "pending" and "delivered" are not enum values; "Pending" and "Delivered" are |
| AdminOrders.WithStatus | src/controllers/admin/orders.ts:81-85 | After a status change the status is the requested one and the old status is in the history. When the old status was already recorded, the history is unchanged. Otherwise the old history is a prefix of the new one, which is at most one entry longer. The history stays duplicate-free, and enum-valid for an enum status. Items and owner do not change |
| AdminOrders.Decide | src/controllers/admin/orders.ts:75-86 | A request is refused exactly when the current status is "pending" and the requested one "delivered", compared case-sensitively. It is saved exactly when it is not refused, a status is given and the updated order passes validation |
| AdminOrders.ChangeOrderStatus | src/controllers/admin/orders.ts:61-96 | A malformed id gives 500 and an unknown id 404, neither changing the store. Otherwise the reply is the decision's (400, 500 or 200), and only a saved decision changes the order, to its updated form |
| AdminOrders.ReplayKeepsHistory | src/controllers/admin/orders.ts:81-86 | Over any sequence of requests, a valid duplicate-free history stays valid and duplicate-free. Its old entries stay as a prefix, and it grows by at most one entry per request |
| AdminOrders.GuardNeverFires | src/controllers/admin/orders.ts:76-80 | For every order the schema accepts, the pending-to-delivered refusal never fires |
| AdminOrders.PendingToDeliveredAccepted | src/controllers/admin/orders.ts:75-86 | A new "Pending" order is moved straight to "Delivered" as written; the corrected guard refuses the same request |
| AdminOrders.DecideIntended | src/controllers/admin/orders.ts:75-80 | The corrected guard refuses exactly "Pending" to "Delivered" in the enum's spelling, and a saved order never makes that move |
| AdminOrders.OrdersAfterDelete | src/controllers/admin/orders.ts:105-111 | Deleting a found order removes that order and every order whose id appears in its item list. Every other order is kept with its value unchanged |
| AdminOrders.DeleteOrder | src/controllers/admin/orders.ts:98-120 | A malformed id gives 500 and an unknown id 404, both leaving the orders unchanged. A found order gives 204 and leaves the orders as the loop of `Order` deletions leaves them |
| AdminOrders.OrderItemsAfterDeleteIntended | src/controllers/admin/orders.ts:109-111 | The corrected deletion removes every item the order lists. Every other item is kept, with its value unchanged |
| AdminOrders.DeleteOrderOrphansItems | src/controllers/admin/orders.ts:105-111 | For an order with one item, the order deletion as written empties the orders but leaves the item; the corrected deletion removes it |
| AdminOrders.GetOrdersCount | src/controllers/admin/orders.ts:38-59 | 500 with "Could not count orders!" exactly when there are no orders, otherwise 200 with `{count}` |
| AdminOrdersJs.ChangeOrderStatus | controllers/admin/orders.js:54-87 | The same lookup, the same case-sensitive refusal, the same history push and the same save as the typed handler |
| AdminOrdersJs.GetOrdersCount | controllers/admin/orders.js:35-53 | The count reply is the typed handler's: 500 for an empty collection, otherwise `{count}` |
| AdminOrdersJs.DeleteOrder | controllers/admin/orders.js:89-108 | `Order.findByIdDelete` does not exist, so every call answers 500 with a TypeError and deletes nothing |
| Otp.IssuedCode | src/controllers/auth.ts:128 | An issued code lies in [1000, 9999], so it is never the "confirmed" sentinel 1 |
| Otp.Issue | src/controllers/auth.ts:130-131 | Issuing stores the code and an expiry of now + 600000 ms and changes nothing else on the user |
| Otp.Confirm | src/controllers/auth.ts:169-170 | Confirming sets the code to 1 and clears the expiry, nothing else |
| Otp.Reset | src/controllers/auth.ts:205-206 | A reset stores the new hash and clears the code, so a second reset is refused; nothing else changes |
| Otp.IssuedCodeAccepted | src/controllers/auth.ts:160-164 | A freshly issued code verifies exactly for itself and only until its expiry |
| Otp.IssueDoesNotAllowReset | src/controllers/auth.ts:128-131 | Issuing a code alone never opens the password reset |
| Otp.ResetFlow | src/controllers/auth.ts:148-215 | Issue, verify before expiry and reset succeed in turn. Afterwards both a second reset and a second verification of the old code are refused |
| Otp.ConfirmIsOneShot | src/controllers/auth.ts:160-170 | Once confirmed, the old code no longer verifies; only the sentinel itself would |
| Otp.IssuedCodeJs | controllers/auth.js:110 | The JavaScript copy issues codes in [0, 8999999] |
| Otp.JsIssueCanAllowReset | controllers/auth.js:110-113 | For one value of `Math.random()`, the JavaScript copy issues the sentinel 1, which opens the reset without verification |
| Records.UserKeys | src/models/user.ts:30-89 | A serialised user always has `_id`, the `id` virtual and the required paths, and has an OTP key exactly when an OTP is set |
| Records.NewCategory | src/models/category.ts:10-27 | A new category keeps the given name and image. Its colour defaults to "#000000", and its deletion flag is set only when given as true |
| TokenStore.UpsertKeepsOnePerUser | src/controllers/auth.ts:76-80 | A login upsert keeps at most one session per user. It leaves exactly one session for the user who logged in, with the new tokens, and keeps every other user's session |
| TokenStore.DeleteRemovesKey | src/controllers/auth.ts:226-227 | With unique access tokens, deleting by access token leaves no session with that token and keeps every other session |
| TokenStore.Refreshed | src/middlewares/error_handler.ts:75-82 | A refresh replaces only the access token of that one session |
| TokenStore.RefreshKeepsOnePerUser | src/middlewares/error_handler.ts:75-82 | A refresh keeps at most one session per user |
| Auth.MessagesOnly | src/controllers/auth.ts:13-18 | The validation reply lists one message per failed check, in order, without fields |
| Auth.NewUser | src/controllers/auth.ts:20-23 | A user is built exactly when name, email and phone are present and non-blank after trimming, every cart entry given is an ObjectId, and the hash is non-empty. The email is stored trimmed, with the given hash. The body's spread sets the admin flag, the cart, the reset code and its expiry as given; the cart is empty and the code unset when the body omits them |
| Auth.RegisteredSentinelOpensReset | src/controllers/auth.ts:21-22 | A registration body that sets the reset code to the sentinel 1 creates a user whose password reset is accepted without any code being issued |
| Auth.DuplicateEmailError | src/models/user.ts:87 | A second user with the same email fails with a duplicate-key error of code 11000 |
| Auth.SaveNewUser | src/controllers/auth.ts:21-23 | An invalid user is not saved. A taken email is refused by the unique index and saves nothing. Otherwise the user is inserted under the new id |
| Auth.InsertKeepsEmailsUnique | src/models/user.ts:87 | An insert the unique index admits keeps emails unique |
| Auth.Register | src/controllers/auth.ts:9-43 | Failed checks give 400 with the messages. A taken email gives 409 and an invalid user 500; none of these stores anything. 201 comes exactly when the checks pass, the user built from the whole body is valid and the email is free, and it stores exactly that user |
| Auth.UpsertSession | src/controllers/auth.ts:76-80 | The login upsert leaves one session for the user, holding both new tokens |
| Auth.LoginKeys | src/controllers/auth.ts:82-84 | The login reply has no password hash, and it carries `id` and both tokens |
| Auth.Login | src/controllers/auth.ts:45-89 | An unknown email gives 404 and a wrong password 400, neither touching the sessions. A 200 means a user with that email has a matching password and a session upserted for it |
| Auth.HeaderTokenOfBearer | src/controllers/auth.ts:98 | For "Bearer t" the looked-up token is t, trimmed |
| Auth.VerifyToken | src/controllers/auth.ts:91-114 | No header, or no session with the header's token, answers false. `true` needs a stored session whose refresh token decodes to an existing user and verifies |
| Auth.ForgotPassword | src/controllers/auth.ts:116-146 | An unknown email gives 404 and changes nothing. Otherwise the user holding that email gets a fresh code with a ten-minute expiry, kept even if the mail fails |
| Auth.VerifyPasswordResetOtp | src/controllers/auth.ts:148-179 | An unknown email gives 404. A 200 means the stored code matched before expiry and is now the sentinel. A 401 means it did not, and the user is unchanged |
| Auth.ResetPassword | src/controllers/auth.ts:181-215 | Failed checks give 400 and an unknown email 404. A 200 means the code was the sentinel, and the hash is replaced and the code cleared. A 401 means it was not, and nothing changes |
| Auth.Logout | src/controllers/auth.ts:217-233 | No header gives 401 and changes nothing. Otherwise one session holding the header's token is deleted, if any, and the reply is 200 either way |
| AuthJs.WithFields | controllers/auth.js:10-17 | The JavaScript validation reply lists the field and the message of each failed check, in order |
| AuthJs.DuplicateErrorIsRecognised | controllers/auth.js:34-39 | The unique-index error's message contains "email_1 dup key", so the JavaScript test recognises duplicates |
| AuthJs.Register | controllers/auth.js:9-43 | The same outcomes as the typed `register`, storing the user built from the whole body, with fields listed in the validation reply |
| AuthJs.LoginKeys | controllers/auth.js:73-74 | The JavaScript login reply has no password hash and no `id` virtual, and carries both tokens |
| AuthJs.Login | controllers/auth.js:44-79 | The same lookups, password check and session upsert as the typed `login` |
| AuthJs.VerifyToken | controllers/auth.js:80-100 | Without a header the handler sends nothing (the comma expression). Otherwise it answers as the typed `verifyToken` |
| AuthJs.ForgotPassword | controllers/auth.js:101-128 | The user gets a code from the JavaScript range with a ten-minute expiry; an unknown email gives 404 |
| AuthJs.VerifyPasswordResetOtp | controllers/auth.js:129-156 | A 200 means the code matched before expiry and became the sentinel; a 401 leaves the user unchanged |
| AuthJs.ResetPassword | controllers/auth.js:157-190 | A 200 means the code was the sentinel and the password was replaced; a 401 changes nothing |
| AuthJs.Logout | controllers/auth.js:192 | The empty handler sends nothing and removes no session |
| AccessControl.ExemptPaths | src/middlewares/jwt.ts:35-53 | The exempt list holds twelve paths under the API prefix |
| AccessControl.AuthJwt | src/middlewares/jwt.ts:20-28 | Building the gate fails exactly when the access secret is unset or empty; an unset prefix counts as "" |
| AccessControl.LogoutIsNotExempt | src/middlewares/jwt.ts:35-53 | The twelve exempt paths are distinct, and the logout path is not among them |
| AccessControl.AdminRouteIgnoresCase | src/middlewares/jwt.ts:74-77 | The admin-route test gives the same answer for a URL and its upper-cased form |
| AccessControl.AdminPrefixIsFixed | src/middlewares/jwt.ts:74 | The admin test is tied to "/api/v1/admin/", not to the configured prefix: "/api/v2/admin/users" is not an admin route, while "/API/V1/Admin/users" is |
| AccessControl.RevocationKeyOfBearer | src/middlewares/jwt.ts:72 | For a Bearer header the looked-up token is the rest of the header, trimmed. This is the same token logout deletes |
| AccessControl.IsRevoked | src/middlewares/jwt.ts:62-80 | A missing or non-Bearer header is revoked, and so is a non-admin on an admin route |
| AccessControl.NotRevokedExactly | src/middlewares/jwt.ts:72-79 | A Bearer header passes exactly when a session holds its token and the caller is an admin or the route is not an admin route |
| AccessControl.LogoutRevokes | src/middlewares/jwt.ts:72-79 | After a logout with a header, every later request with that header is revoked |
| AccessControl.Admits | src/middlewares/jwt.ts:30-55 | Exempt paths always pass. Any other request that passes had a valid signature and a Bearer header |
| TokenRefresh.AccessTokenOf | src/middlewares/error_handler.ts:31-32 | A token is read exactly when a header is present and holds a space, and it never holds a space itself |
| TokenRefresh.AccessTokenOfBearer | src/middlewares/error_handler.ts:31-32 | For "Bearer t" with a blank-free t, the token is t |
| TokenRefresh.HandleError | src/middlewares/error_handler.ts:17-98 | Any answer leaves the sessions unchanged. Other errors are answered with their own status. With no session for the token: 401 "Token does not exist". When every matching session's refresh token verifies and names an existing user by ObjectId, the request goes on. When every one is refused by verification or names a malformed id, the answer is 401 "Authentication Error". When every one names a well-formed id with no user, the answer is 404. Going on means only that session's access token changed, to the new token put in both headers |
| AdminCategories.CategoryFromBody | src/controllers/admin/categories.ts:38-40 | A category is built exactly when the body has a non-empty name and the image URL is non-empty, and it carries both |
| AdminCategories.SaveCategory | src/controllers/admin/categories.ts:32-49 | No uploaded image gives the handler's no-file reply and stores nothing. Otherwise the category is saved with the file's URL, or refused by validation |
| AdminCategories.CreateCategory | src/controllers/admin/categories.ts:13-57 | An upload error gives 500 with its code and field and stores nothing. No image gives 404 "No File Found". Otherwise the saved category holds the uploaded file's URL. Uploaded files stay on disk |
| AdminCategories.CreatedImageIsStored | src/controllers/admin/categories.ts:38 | The stored image URL's basename is the name of the file the upload wrote |
| AdminCategories.Flagged | src/controllers/admin/categories.ts:70 | A soft delete sets the deletion flag and nothing else |
| AdminCategories.FlaggedIdempotent | src/controllers/admin/categories.ts:70-71 | Flagging twice is flagging once |
| AdminCategories.DeleteCategory | src/controllers/admin/categories.ts:59-80 | A malformed id gives 500 and an unknown id 404, both changing nothing. A found valid category gives 204 with its flag set, and no category is ever removed |
| AdminCategories.SoftDeleted | src/controllers/admin/categories.ts:70-72 | After a soft delete the same ids remain; the target is flagged and all others are unchanged |
| AdminCategories.SoftDeleteIdempotent | src/controllers/admin/categories.ts:70-72 | A repeated soft delete leaves the collection as the first one did |
| AdminCategories.Updated | src/controllers/admin/categories.ts:111-116 | An update changes only name and colour, where the body gives them; image and deletion flag are kept |
| AdminCategories.UpdateCategory | src/controllers/admin/categories.ts:106-134 | A malformed id gives 500 and an unknown id 404, unchanged. Otherwise 200, with only name and colour updated |
| AdminCategories.UpdateKeepsFlag | src/controllers/admin/categories.ts:111-116 | An update never clears the deletion flag |
| AdminCategoriesJs.CreateCategory | controllers/admin/categories.js:4-44 | A request without an image field ends in the catch as a 500 TypeError, not a 404; the rest is as in the typed copy |
| AdminCategoriesJs.DeleteCategory | controllers/admin/categories.js:46-64 | An unknown id gives 404. A found valid category gives 204 with its flag set, and no category is removed |
| AdminCategoriesJs.UpdateCategory | controllers/admin/categories.js:87-112 | An unknown id gives 404; otherwise only name and colour change |
| CategorySweep.Purge | src/helpers/cron_job.ts:7-15 | A complete sweep keeps every unflagged category and every category a product references. It removes only flagged, unreferenced ones and changes none it keeps |
| CategorySweep.PurgeIdempotent | src/helpers/cron_job.ts:10-15 | A second sweep with nothing changed in between removes nothing more |
| CategorySweep.FlaggedIds | src/helpers/cron_job.ts:7-9 | The sweep examines exactly the flagged categories |
| CategorySweep.ProductsIn | src/helpers/cron_job.ts:11-13 | The product count is zero exactly when no product references the category |
| CategorySweep.Swept | src/helpers/cron_job.ts:10-15 | After examining any set of categories, only examined, removable ones are gone and the rest are unchanged |
| CategorySweep.SweptAll | src/helpers/cron_job.ts:10-15 | Examining all flagged categories, in any order, gives the complete sweep |
| CategorySweep.Sweep | src/helpers/cron_job.ts:5-19 | Without a fault the sweep ends in the complete sweep. With one, every removal made is still removable, every kept category is unchanged, and a failing `find` removes nothing |
| ProductModel.NewProduct | src/models/product.ts:21-87 | A new product keeps the given rating, reviews, review count and date, and defaults them to 0, no reviews, 0 and now when absent. It keeps the given images and category |
| ProductModel.FirstBit | src/models/product.ts:110-111 | A word contributes at most one character, and none exactly when it is missing or empty |
| ProductModel.Initials | src/models/product.ts:108-113 | The initials, upper-cased one character at a time, are at most two characters long |
| ProductModel.InitialsMatchesScan | src/models/product.ts:108-113 | The split-based initials equal a split-free reading: the upper-cased first character of the name and of the text after the first space, where that is not a space |
| ProductModel.PreSave | src/models/product.ts:89-101 | With reviews, the review count becomes their number and the rating their average. Without reviews the product is untouched. Reviews, images and stock never change |
| ProductModel.PreSaveIdempotent | src/models/product.ts:89-101 | Saving twice changes nothing more, and the hook never affects the schema bounds |
| Pagination.Window | src/controllers/admin/products.ts:18-21 | `skip(s).limit(n)` returns at most n items: those at positions s, s+1, ..., in order |
| Pagination.TotalPages | src/controllers/admin/products.ts:33 | The page count is the least n with 10·n covering the total |
| Pagination.ItemOnItsPage | src/controllers/admin/products.ts:15-21 | The item at position i is on page i/10 + 1, at position i mod 10, and that page is within the page count |
| Pagination.EmptyExactlyPastTheEnd | src/controllers/admin/products.ts:23-33 | A page is empty exactly when its number exceeds the page count |
| AdminProducts.PageNumber | src/controllers/admin/products.ts:15 | A missing, zero or non-numeric page means page 1; any other number is kept |
| AdminProducts.PageReply | src/controllers/admin/products.ts:18-35 | A page below 1 is refused by the store (negative skip). A page past the count gives 404. Otherwise 200 carries that page's items, the page number, the page count and the total |
| AdminProducts.GetProducts | src/controllers/admin/products.ts:10-40 | A negative page is refused by the store with 500. A missing or zero page is page 1. At a page of at least 1, the reply is 404 exactly when the page is past the page count. A 200 carries that page's items, the page number, the page count and the total. No other status is sent |
| AdminProducts.EveryProductListed | src/controllers/admin/products.ts:10-40 | Every product is shown by the listing at the page and position its place in the store gives |
| AdminProducts.DefaultIsFirstPage | src/controllers/admin/products.ts:15-35 | A request without a page lists the first ten products |
| AdminProducts.GetProductsCount | src/controllers/admin/products.ts:42-64 | 500 exactly when there are no products, otherwise `{count}` |
| AdminProducts.ProductFromBody | src/models/product.ts:21-87 | A product is saved exactly when the required paths are present, the category and every review id are ObjectIds, the gender category is one of the four and the stock lies in [0, 255]. The saved product carries the body's image, gallery, category, reviews and date. With reviews, the pre-save hook sets the rating to their average and the count to their number; without, the body's rating and count are kept |
| AdminProducts.CategoryCheck | src/controllers/admin/products.ts:91-103 | Products may be added exactly when the category id is given, well-formed, known and not flagged. Otherwise the reply is 404 (missing or flagged) or a 500 CastError |
| AdminProducts.Urls | src/controllers/admin/products.ts:122-124 | One URL per stored file, in upload order |
| AdminProducts.CollectUrls | src/controllers/admin/products.ts:120-125 | The push loop yields exactly the URLs of the stored files, in order |
| AdminProducts.WithUploads | src/controllers/admin/products.ts:115-128 | The body gets the main image's URL. It gets the gallery's URLs in upload order only when the gallery is non-empty. Nothing else changes |
| AdminProducts.AddProduct | src/controllers/admin/products.ts:66-152 | An upload error gives 500. A missing or flagged category gives 404 and a malformed one 500. A missing main image gives 404. Failed validation gives 500. None of these saves anything. Otherwise 201 and exactly that product is stored. Uploaded files stay on disk |
| AdminProducts.AddedGalleryInOrder | src/controllers/admin/products.ts:116-128 | A created product's gallery is the uploaded gallery's URLs in order, at most ten |
| AdminProducts.Edited | src/controllers/admin/products.ts:247-251 | An update overwrites exactly the paths the body gives, rating, reviews, review count and date included, and keeps every other path |
| AdminProducts.EditedEmptyBody | src/controllers/admin/products.ts:247-251 | An update with an empty body leaves the product unchanged |
| AdminProducts.EditedIdempotent | src/controllers/admin/products.ts:247-251 | Applying the same update twice gives the same product as applying it once |
| AdminProducts.GalleryStep | src/controllers/admin/products.ts:192-216 | A gallery upload error stops the edit. New URLs are appended after the existing images; with no new files the body is unchanged |
| AdminProducts.ImageStep | src/controllers/admin/products.ts:218-245 | The edit goes on exactly when the image upload succeeded and stored an image, and it takes that image's URL |
| AdminProducts.PlanEdit | src/controllers/admin/products.ts:166-246 | Without a category the body is used unchanged. A bad category stops with its reply. Only `images` and `image` can be rewritten on the way |
| AdminProducts.RunGallery | src/controllers/admin/products.ts:182-217 | Running the gallery upload and its push loop gives the gallery step's result and only adds files |
| AdminProducts.RunImage | src/controllers/admin/products.ts:218-245 | Running the image upload gives the image step's result and only adds files |
| AdminProducts.RunEditSteps | src/controllers/admin/products.ts:166-246 | The steps run against the store give the planned result and only add files |
| AdminProducts.EditProduct | src/controllers/admin/products.ts:154-269 | A malformed or unknown id gives 404, unchanged. A stopped plan answers its reply, unchanged. A malformed category gives a 500 CastError. Otherwise 200 and the product becomes the edited one. Files are only added |
| AdminProducts.EditGalleryCapped | src/controllers/admin/products.ts:182-216 | An edit that adds gallery files keeps the existing images first, in order, and never grows a gallery of at most ten past ten |
| AdminProducts.Pulled | src/controllers/admin/products.ts:289-297 | Exactly the listed URLs leave the gallery |
| AdminProducts.PulledAppend | src/controllers/admin/products.ts:289-297 | Pulling works piecewise over concatenation, so the images that stay keep their order |
| AdminProducts.PulledIdempotent | src/controllers/admin/products.ts:289-297 | Pulling the same URLs twice removes nothing more |
| AdminProducts.DeleteProductImages | src/controllers/admin/products.ts:271-316 | A malformed id or a non-array list gives 400 and changes nothing. The files go first; an unlink error gives 404 (ENOENT) or 500 and leaves the product. An unknown product gives 404. Otherwise 200, with exactly the listed URLs pulled. A 200 implies every listed file existed |
| AdminProducts.DeleteProductFiles | src/controllers/admin/products.ts:336-338 | Files are unlinked only when the product has an image or a gallery. Without an error, no gallery file remains |
| AdminProducts.DeleteProduct | src/controllers/admin/products.ts:318-348 | A malformed id gives 400 and an unknown id 404. Files go first, then reviews, then the product; a failure at any step keeps the earlier deletions and skips the later ones. A deleted product leaves none of its reviews or gallery files |
| AdminProductsJs.PageNumber | controllers/admin/products.js:10 | Only a missing page falls back to 1; a page 0 is kept |
| AdminProductsJs.GetProducts | controllers/admin/products.js:8-35 | Page "0" is kept and gives 500 from the store. Every other page, or none, answers exactly as the typed listing |
| AdminProductsJs.ZeroPageDiffers | controllers/admin/products.js:10-16 | Page 0 fails here with a negative skip, while the typed copy shows page 1 |
| AdminProductsJs.GetProductsCount | controllers/admin/products.js:36-54 | 500 exactly when there are no products, as in the typed copy |
| AdminProductsJs.AddProduct | controllers/admin/products.js:55-124 | As the typed copy, except that a malformed category, a missing image field and failed validation end in the broken catch, unanswered |
| AdminProductsJs.EditProduct | controllers/admin/products.js:126-222 | No edit is ever stored (`findByIdUpdate` does not exist). The only answers are 404s and upload failures; the rest goes unanswered |
| AdminProductsJs.DeleteProductImages | controllers/admin/products.js:224-265 | Invalid input gives 400. A 200 pulled exactly the listed URLs, and every listed file existed |
| AdminProductsJs.DeleteProduct | controllers/admin/products.js:267-291 | No unlink error is skipped: one aborts with 500 before reviews and product are touched. A deleted product leaves none of its reviews |
| Catalogue.ListFilter | src/controllers/products.ts:13-47 | The filter has a category condition exactly when a category is given. It has `dateAdded ≥ now − 14 days` exactly for "newArrivals" and `rating > 4.5` exactly for "popular", and nothing else |
| Catalogue.UnknownCriteriaIgnored | src/controllers/products.ts:28-29 | An unknown criteria value filters exactly as no criteria at all |
| Catalogue.SearchFilter | src/controllers/products.ts:72-97 | With a category, the gender is added lower-cased only when it is a single string. Without one, any truthy gender is added, lower-cased or "". The text clause is added exactly when q is non-empty |
| Catalogue.Select | src/controllers/products.ts:31 | The selection holds exactly the listed products that match the filter, and never more of them than were listed |
| Catalogue.SelectAppend | src/controllers/products.ts:31 | Selecting from two lists one after the other gives the selection from the first followed by that from the second, so the store's order is kept |
| Catalogue.Skip | src/controllers/products.ts:11-12 | A missing page skips -10. The skip is non-negative exactly from page 1 on. Skips are multiples of 10, and page p starts at position 10·(p − 1) |
| Catalogue.ListReply | src/controllers/products.ts:31-53 | A negative skip is refused by the store with 500. Otherwise 200 carries the ten-item window at the skip, possibly empty |
| Catalogue.GetProducts | src/controllers/products.ts:5-61 | A category that is given and is not an ObjectId gives 500 with a CastError, whatever the page. Otherwise the reply is the paged selection under the listing filter. Never 404 |
| Catalogue.SearchProducts | src/controllers/products.ts:64-117 | A category that is given and is not an ObjectId gives 500 with a CastError, whatever the page. Otherwise the reply is the paged selection under the search filter. Never 404 |
| Catalogue.DefaultPageFails | src/controllers/products.ts:11-33 | Without a page the skip is −10, and every listing fails with 500 |
| Catalogue.IntendedSkip | src/controllers/products.ts:11-12 | The corrected skip treats a missing or zero page as the first, and page p ≥ 1 as skip 10(p−1) |
| Catalogue.IntendedDefaultIsFirstPage | src/controllers/products.ts:11-33 | With the corrected skip, a request without a page lists the first ten products, and every product is on the page its position gives |
| Catalogue.GetProductById | src/controllers/products.ts:120-140 | A malformed id gives a 500 CastError. Otherwise 404 exactly for an unknown id, and 200 only for a stored product |
| AdminUsers.GetUsersCount | src/controllers/admin/users.ts:8-22 | 500 "Could not get user count" exactly when there are no users, otherwise the bare number |
| AdminUsers.UserOrders | src/controllers/admin/users.ts:34-36 | The orders found and deleted are exactly those whose user is the id |
| AdminUsers.NestedListIds | src/controllers/admin/users.ts:35-37 | The nested id lists match exactly the only item of each one-item order, and nothing else |
| AdminUsers.AllItemIds | src/controllers/admin/users.ts:35-37 | The flattened lists name every item of every order found |
| AdminUsers.NestedAgreesWhenCast | src/controllers/admin/users.ts:35-37 | When every order has at most one item, the nested lists match exactly the items the flattened lists would |
| AdminUsers.TwoItemOrderBreaksCascade | src/controllers/admin/users.ts:35-37 | One order with two items is enough to make the order-item deletion fail |
| AdminUsers.CartIds | src/controllers/admin/users.ts:38 | The cart lines deleted are exactly those the cart lists |
| AdminUsers.DeleteUser | src/controllers/admin/users.ts:24-50 | A malformed id, a failed lookup or an unknown user changes nothing (500, 500, 404). Otherwise the eight steps run in order and a failure keeps earlier deletions. 204 exactly when all steps complete; the user and the user's orders are then gone, and with one session per user so is the session |
| AdminUsers.ItemsAfterUserDeleteIntended | src/controllers/admin/users.ts:35-37 | The corrected cascade removes every item of every order of the user. Every item that no order of the user lists is kept, with its value unchanged |
| AdminUsersJs.GetUsersCount | controllers/admin/users.js:6-17 | 500 exactly when there are no users, otherwise the bare number |
| AdminUsersJs.DeleteUser | controllers/admin/users.js:19-42 | The same cascade: 404 for an unknown user; orders and items as in the typed copy; 204 exactly when all steps complete, and then the user and the user's orders are gone |
| Users.ListedKeys | src/controllers/users.ts:9 | A listed user shows only `_id`, `id`, name, email and isAdmin, never the hash, cart, phone or OTP |
| Users.GetUsers | src/controllers/users.ts:4-24 | The listing is 200 with the users in the store's order, each with the listed keys only |
| Users.ProfileKeys | src/controllers/users.ts:31-33 | A profile shows every key but the hash, the two OTP fields and the cart, and always the identity and contact keys |
| Users.GetUserById | src/controllers/users.ts:26-47 | A malformed id gives a 500 CastError and an unknown id 404. Otherwise 200 with the profile keys |
| Users.ReadsHideSecrets | src/controllers/users.ts:9-33 | Neither read endpoint shows a password hash, an OTP or a cart |
| Users.WithContact | src/controllers/users.ts:59-67 | An update writes only name, email and phone, trimmed, where given; every other field is kept |
| Users.UpdateUser | src/controllers/users.ts:49-83 | A malformed id gives 500 and an unknown id 404. A taken email gives 500. Each of these changes nothing. Otherwise 200: the user gets the contact update, and the reply shows it with an empty hash and cart. Unique emails stay unique |
| Media.AllowedExtension | src/helpers/media_helper.ts:10-14 | Exactly image/png, image/jpg and image/jpeg are allowed, mapped to png, jpg and jpeg |
| Media.StoredName | src/helpers/media_helper.ts:24-36 | A stored name always starts with "-" |
| Media.StoredNameIsSegment | src/helpers/media_helper.ts:29-35 | For a slash-free original name and uuid, the stored name is a single non-empty path segment |
| Media.UrlNamesItsFile | src/helpers/media_helper.ts:65 | The basename of a stored URL is the stored file's name, so deleting by URL finds the uploaded file |
| Media.PartError | src/helpers/media_helper.ts:39-56 | A part is accepted only with an allowed mime type, at most 5 MiB, and within its field's count |
| Media.ProcessUpload | src/helpers/media_helper.ts:39-56 | A request that is not multipart skips the upload. A successful one stores every part, in order, under its generated name |
| Media.SingleFileField | src/helpers/media_helper.ts:39-56 | A field with maxCount 1 takes at most one file |
| Media.RunUpload | src/helpers/media_helper.ts:16-23 | A successful upload adds its files to the upload directory; a failed one leaves it as it was |
| Media.FilesOfCount | src/helpers/media_helper.ts:39-56 | A field has as many stored files as parts sent for it |
| Media.UploadRespectsMaxCount | src/helpers/media_helper.ts:39-56 | An upload never stores more files for a field than its maxCount |
| Media.FilesOf | src/helpers/media_helper.ts:16-23 | A field's files are stored files of that field, none exactly when none were sent for it |
| Media.FirstFile | src/helpers/media_helper.ts:16-23 | The first file of a field exists exactly when the upload stored one for it |
| Media.NamesOf | src/helpers/media_helper.ts:65 | Each URL is reduced to its basename |
| Media.UnlinkAll | src/helpers/media_helper.ts:76-86 | Every named file is removed, unless the name denotes a directory. Skipping the error name "Error" never fails. Any error is named "Error" and has code ENOENT or EISDIR |
| Media.DeleteAll | src/helpers/media_helper.ts:58-89 | The directory loses every file a URL's basename names. Errors are skipped only by name, and all unlinks are attempted |
| Media.CleanUnlinkFoundAll | src/helpers/media_helper.ts:76-86 | An unlink run that skips nothing and ends without error found every name |
| Media.CleanDeleteFoundAll | src/helpers/media_helper.ts:58-89 | A `deleteImages` that skips nothing resolves only when every URL named an existing file |
| Media.DeleteImages | src/helpers/media_helper.ts:58-89 | The loop leaves the directory and the first error exactly as the specification function gives them |

## Left out

- Store errors other than those named are not modelled. Faults are injected only into the cascades, where earlier writes stay: `deleteUser`, `deleteProduct` and the category sweep.
- Hashing, token signing and verification, uuids, `Math.random()`, the clock and mail delivery are parameters, because the model cannot compute them.
- Token expiry in the store is not modelled, because it is store-side eviction on a timer.
- Error messages raised by libraries and the store are not modelled; only the error's name or code is.
- Query strings are parsed before the model sees them: a page is an optional integer, and a non-numeric page counts as missing.
- "newArrivals" uses `now − 14·24·3600·1000` ms. Calendar arithmetic across daylight-saving changes is not modelled.
- Letter-case folding is ASCII-only. The admin-route pattern and the gender value use ASCII in practice.
- The `$text` search of the catalogue is a parameter, because it is the store's text index.
- The product rating average is a parameter, because it is floating-point arithmetic.
- `deleteImages` runs its unlinks side by side (`Promise.all`); the model runs them in order, and so does each request.
- The typed `deleteImages` resolves the directory from `__dirname/..` (src/helpers/media_helper.ts:68-74), while uploads go to `public/uploads` relative to the working directory. The model treats both as one directory, `Db.uploads`.
- `editProduct`'s two upload runs read the request separately: `galleryReq` and `imageReq`. Multer replacing `req.body` with the multipart fields is not modelled.
- Body keys outside a schema are dropped, as Mongoose's strict schemas do. A registration body may also set the user's `role`, address paths and wishlist; these are not modelled because no modelled handler reads them.
- ProductModel.Initials: the bound of two characters holds under the model's ASCII upper-casing. JavaScript's `toUpperCase` is full Unicode, where one character can become several ("ß" becomes "SS", "ﬃ" becomes "FFI"), so the source's initials can be longer than two characters.
- Media.RunUpload: a refused file type leaves the upload directory unchanged in the model. The source's filter calls its callback twice (src/helpers/media_helper.ts:53-54, helpers/media_helper.js:35-36): first with the error, then accepting the file. Multer is not part of this model, so whether the second call still writes the refused file to disk is not captured.
- The `__v` version key is not among the modelled document keys.
- The cart `$pull` with `{$exists: true}` is modelled as emptying the cart.
- `getCategories` in both category controllers is not modelled, because it is a plain listing.
- Route wiring is not modelled, including `deleteOrder` being unreachable behind the status route.
- Auth.VerifyToken: states only when the answer is `false` and what `true` implies; the other `false` answers and the 500 are not spelled out.
- AuthJs.VerifyPasswordResetOtp: does not state that a known email is always answered 200 or 401, nor the 200 body. These are the typed copy's, to which it delegates.
- AuthJs.ResetPassword: does not state the 200 and 401 bodies, nor that a known email is always answered 200 or 401. These are the typed copy's.
- AdminCategoriesJs.DeleteCategory: omits the malformed-id and invalid-document cases, which are those of the typed copy.
- AdminCategoriesJs.UpdateCategory: omits the malformed-id case and the 200 body, which are those of the typed copy.
- AdminUsersJs.GetUsersCount: omits the 500 message, which is the typed copy's.
- AdminProductsJs.DeleteProductImages: states the invalid-input reply and what a 200 means; the error replies are those of the typed copy.
- AdminProductsJs.DeleteProduct: states the aborting unlink error and the review removal; the other outcomes are those of the typed copy.
- AdminUsersJs.DeleteUser: states the 404, the order and item outcomes and the 204 consequences. The malformed-id and lookup-failure replies and the cart, session and user steps are the typed copy's.
- Media.StoredName: states the leading "-". The full rewriting is its definition, and `StoredNameIsSegment` and `UrlNamesItsFile` state what the handlers rely on.

## Findings

| source | as written | input that shows it | evidently intended | confidence | as-written member | corrected member |
|---|---|---|---|---|---|---|
| src/controllers/admin/orders.ts:76 | The guard compares the status with "pending" and "delivered" in lower case, but the enum spells them "Pending" and "Delivered" | An order in "Pending" with `{status: "Delivered"}` is saved as "Delivered" | Refuse the direct move from Pending to Delivered | high, not executed | AdminOrders.PendingToDeliveredAccepted | AdminOrders.DecideIntended |
| controllers/auth.js:110 | The code is `Math.floor(1000 * Math.random() * 9000)`, which ranges over [0, 8999999] and includes the sentinel 1 | `Math.random()` returning 1.5e-7 issues code 1, and `resetPassword` then accepts without verification | A four-digit code as in the typed copy, never 1 | high, not executed | Otp.JsIssueCanAllowReset | Otp.IssueDoesNotAllowReset |
| src/controllers/products.ts:11 | The page defaults to 0, so the skip is 10·(0−1) = −10 | `GET /products` without `page` makes the store refuse the negative skip, giving 500 | A missing page is the first page | high, not executed | Catalogue.DefaultPageFails | Catalogue.IntendedDefaultIsFirstPage |
| src/controllers/admin/orders.ts:110 | Each item id of a deleted order is deleted from the `Order` collection | Deleting an order with one item leaves that item in the `OrderItem` collection | Delete the order's items from `OrderItem` | high, not executed | AdminOrders.DeleteOrderOrphansItems | AdminOrders.OrderItemsAfterDeleteIntended |
| src/controllers/admin/users.ts:35 | `$in` gets one list of item ids per order. Each list is cast to one ObjectId through its text, so a list of two ids fails the cast after the orders are already deleted | A user with one order of two items: `deleteUser` deletes the orders, then answers 500, leaving the items, the cart, the session and the user | Delete every item of every order of the user (flatten the lists) | medium, not executed | AdminUsers.TwoItemOrderBreaksCascade | AdminUsers.ItemsAfterUserDeleteIntended |
