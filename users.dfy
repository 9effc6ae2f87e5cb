/** The user endpoints (src/controllers/users.ts): the user listing, one user's profile, and the profile
    update, each showing only part of the stored document. */
module Users {
  import opened Common
  import opened Records
  import opened Strings
  import opened Store

  const UserNotFound := "User not found"

  /** The keys `select("name email id isAdmin")` leaves on a listed user: `_id` always, the three selected
      paths, and the `id` virtual added when the document is serialised (`id` is no stored path). */
  function ListedKeys(u: User): (keys: set<string>)
    ensures keys <= UserKeys(u)
    ensures "passwordHash" !in keys && "cart" !in keys && "phone" !in keys
    ensures "resetPasswordOtp" !in keys && "resetPasswordOtpExpires" !in keys
  {
    {"_id", "id", "name", "email", "isAdmin"}
  }

  /** `getUsers`: every user in the store's order, projected. `find` always yields an array, so the 404
      branch of the handler is never taken. */
  function GetUsers(users: map<Id, User>, listing: seq<Id>): (r: Reply)
    requires forall i :: 0 <= i < |listing| ==> listing[i] in users
    ensures r.Is(200) && r.body.Projected? && r.body.ids == listing
    ensures forall i :: 0 <= i < |listing| ==> r.body.keys == ListedKeys(users[listing[i]])
  {
    Reply(200, Projected(listing, {"_id", "id", "name", "email", "isAdmin"}))
  }

  /** The paths `getUserById` excludes. */
  const Hidden: set<string> := {"passwordHash", "resetPasswordOtp", "resetPasswordOtpExpires", "cart"}

  /** The keys of a user as `getUserById` shows it: everything but the secrets and the cart. */
  function ProfileKeys(u: User): (keys: set<string>)
    ensures keys <= UserKeys(u) && keys !! Hidden
    ensures UserKeys(u) <= keys + Hidden
    ensures {"_id", "id", "name", "email", "isAdmin", "phone"} <= keys
  {
    UserKeys(u) - Hidden
  }

  /** `getUserById`: an id that is no ObjectId fails the cast, an unknown one is a 404. */
  function GetUserById(users: map<Id, User>, id: Id): (r: Reply)
    ensures !IsObjectId(id) ==> r == Reply(500, Thrown("CastError"))
    ensures IsObjectId(id) && id !in users ==> r == Reply(404, Message(UserNotFound))
    ensures IsObjectId(id) && id in users ==> r == Reply(200, Fields(ProfileKeys(users[id])))
  {
    if !IsObjectId(id) then Reply(500, Thrown("CastError"))
    else if id !in users then Reply(404, Message(UserNotFound))
    else Reply(200, Fields(ProfileKeys(users[id])))
  }

  /** Neither read endpoint ever shows a password hash, an OTP or a cart. */
  lemma ReadsHideSecrets(users: map<Id, User>, listing: seq<Id>, id: Id)
    requires forall i :: 0 <= i < |listing| ==> listing[i] in users
    ensures GetUsers(users, listing).body.keys !! Hidden
    ensures GetUserById(users, id).body.Fields? ==> GetUserById(users, id).body.keys !! Hidden
  {
  }

  /** The fields `updateUser` takes from the body; an absent one is dropped from the update. */
  datatype Contact = Contact(name: Option<string>, email: Option<string>, phone: Option<string>)

  /** The stored user after `findByIdAndUpdate` with a contact: the given fields, trimmed by the schema's
      setters, replace the old ones, and nothing else changes. No validator runs, so an empty name is kept. */
  function WithContact(u: User, b: Contact): (v: User)
    ensures v.passwordHash == u.passwordHash && v.cart == u.cart && v.isAdmin == u.isAdmin
    ensures v.resetPasswordOtp == u.resetPasswordOtp && v.resetPasswordOtpExpires == u.resetPasswordOtpExpires
    ensures v.name == (if b.name.Some? then Trim(b.name.value) else u.name)
    ensures v.email == (if b.email.Some? then Trim(b.email.value) else u.email)
    ensures v.phone == (if b.phone.Some? then Trim(b.phone.value) else u.phone)
  {
    u.(name := if b.name.Some? then Trim(b.name.value) else u.name,
       email := if b.email.Some? then Trim(b.email.value) else u.email,
       phone := if b.phone.Some? then Trim(b.phone.value) else u.phone)
  }

  /** The new email belongs to another user, so the unique index refuses the update. */
  predicate EmailTaken(users: map<Id, User>, id: Id, b: Contact) {
    b.email.Some? && exists k :: k in users && k != id && users[k].email == Trim(b.email.value)
  }

  /** `updateUser`. Besides the reply, `shown` is the document sent back: the updated user with its password
      hash and cart blanked in the response only. */
  method UpdateUser(db: Db, id: Id, b: Contact) returns (reply: Reply, shown: Option<User>)
    modifies db`users
    ensures !IsObjectId(id) ==> reply == Reply(500, Thrown("CastError"))
    ensures IsObjectId(id) && id !in old(db.users) ==> reply == Reply(404, Message(UserNotFound))
    ensures IsObjectId(id) && id in old(db.users) && EmailTaken(old(db.users), id, b) ==>
              reply == Reply(500, Thrown("MongoServerError"))
    ensures !reply.Is(200) <==> shown.None? && db.users == old(db.users)
    ensures reply.Is(200) <==> IsObjectId(id) && id in old(db.users) && !EmailTaken(old(db.users), id, b)
    ensures reply.Is(200) ==>
              var v := WithContact(old(db.users)[id], b);
              && db.users == old(db.users)[id := v]
              && reply.body == Document
              && shown == Some(v.(passwordHash := "", cart := []))
    ensures UniqueEmails(old(db.users)) ==> UniqueEmails(db.users)
  {
    shown := None;
    if !IsObjectId(id) {
      return Reply(500, Thrown("CastError")), None;
    }
    if id !in db.users {
      return Reply(404, Message(UserNotFound)), None;
    }
    if EmailTaken(db.users, id, b) {
      return Reply(500, Thrown("MongoServerError")), None;
    }
    var user := WithContact(db.users[id], b);
    db.users := db.users[id := user];
    user := user.(passwordHash := "");
    user := user.(cart := []);
    reply, shown := Reply(200, Document), Some(user);
  }
}
