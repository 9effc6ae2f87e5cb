/** The documents of the collections the handlers touch, reduced to the fields they read or write. */
module Records {
  import opened Common

  /** A user (src/models/user.ts); the OTP expiry is kept as milliseconds since the epoch. */
  datatype User = User(
    name: string,
    email: string,
    passwordHash: string,
    isAdmin: bool,
    phone: string,
    cart: seq<Id>,
    resetPasswordOtp: Option<int>,
    resetPasswordOtpExpires: Option<int>)

  /** Some user has this email. */
  predicate HasEmail(users: map<Id, User>, email: string) {
    exists k :: k in users && users[k].email == email
  }

  /** What the unique index on `email` guarantees (src/models/user.ts:87). */
  predicate UniqueEmails(users: map<Id, User>) {
    forall a, b :: a in users && b in users && users[a].email == users[b].email ==> a == b
  }

  /** The top-level keys of a user document serialised with its virtuals (`_id` and the `id` virtual, the
      defaulted `role`, `cart` and `wishlist`, and the OTP paths only while they are set). */
  function UserKeys(u: User): (keys: set<string>)
    ensures {"_id", "id", "name", "email", "passwordHash", "isAdmin", "phone", "cart"} <= keys
    ensures "resetPasswordOtp" in keys <==> u.resetPasswordOtp.Some?
  {
    {"_id", "id", "name", "email", "passwordHash", "isAdmin", "role", "cart", "phone", "wishlist"}
    + (if u.resetPasswordOtp.Some? then {"resetPasswordOtp"} else {})
    + (if u.resetPasswordOtpExpires.Some? then {"resetPasswordOtpExpires"} else {})
  }

  /** A login session (src/models/token.ts): `accessToken` is optional in the schema. */
  datatype TokenDoc = TokenDoc(userId: Id, accessToken: Option<string>, refreshToken: string)

  /** A category (src/models/category.ts). The schema has no `icon` path. */
  datatype Category = Category(name: string, colour: string, image: string, markedForDeletion: bool)

  const DefaultColour := "#000000"

  /** A category as `new Category({...})` builds it from the paths it is given: the colour defaults to black and
      the flag to false. */
  function NewCategory(name: string, colour: Option<string>, image: string, flag: Option<bool>): (c: Category)
    ensures c.name == name && c.image == image
    ensures c.colour == (if colour.Some? then colour.value else DefaultColour)
    ensures c.markedForDeletion <==> flag == Some(true)
  {
    Category(name, colour.GetOr(DefaultColour), image, flag.GetOr(false))
  }

  /** What the schema's `required` validators demand of a category on `save` (an empty string fails). */
  predicate CategoryValid(c: Category) {
    c.name != "" && c.image != ""
  }

  datatype OrderItem = OrderItem(product: Id, quantity: int)

  datatype CartProduct = CartProduct(product: Id, quantity: int)

  datatype Review = Review(user: Id, rating: int)

  predicate IsHexDigit(c: char) {
    '0' <= c <= '9' || 'a' <= c <= 'f' || 'A' <= c <= 'F'
  }

  /** The strings `mongoose.isValidObjectId` accepts as the text of an ObjectId: 24 hexadecimal digits. */
  predicate IsObjectId(id: string) {
    |id| == 24 && forall i :: 0 <= i < |id| ==> IsHexDigit(id[i])
  }
}
