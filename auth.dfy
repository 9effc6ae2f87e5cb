/** The authentication handlers of src/controllers/auth.ts: registration, login with its session upsert, token
    verification, the three password-reset steps, and logout. Hashing, signing, `Math.random`, the clock and
    mail delivery are parameters. */
module Auth {
  import opened Common
  import opened Strings
  import opened Records
  import opened Otp
  import opened TokenStore
  import opened Store

  const UserNotFoundLogin := "User not found. Check your email and try again."
  const IncorrectPassword := "Incorrect password"
  const NoSuchEmail := "User with this email does NOT exists!"
  const MailSent := "Password reset OTP sent to your email"
  const MailFailed := "Error Sending Email"
  const InvalidOtp := "Invalid or Expired OTP"
  const OtpVerified := "OTP Verified"
  const ConfirmFirst := "Confirm OTP before resetting password. "
  const PasswordReset := "Password reset successfully"
  const NoToken := "No token provided"
  const LoggedOut := "Logged out successfully"
  const EmailTaken := "User with this Email already exists"

  /** One failed check of the route's validators: the field it concerns and its message. */
  datatype Finding = Finding(path: string, msg: string)

  /** The typed copy reports only the messages. */
  function MessagesOnly(issues: seq<Finding>): (r: seq<FieldError>)
    ensures |r| == |issues|
    ensures forall i :: 0 <= i < |issues| ==> r[i] == FieldError(None, issues[i].msg)
  {
    if issues == [] then [] else [FieldError(None, issues[0].msg)] + MessagesOnly(issues[1..])
  }

  /** The keys a registration body may carry that reach the stored user; `None` for a key it lacks. The spread
      copies every schema path the body names, the cart and the password-reset fields included. */
  datatype RegisterBody = RegisterBody(name: Option<string>, email: Option<string>, phone: Option<string>,
                                       isAdmin: Option<bool>, cart: Option<seq<Id>>,
                                       resetPasswordOtp: Option<int>, resetPasswordOtpExpires: Option<int>)

  /** A string the schema's `required` accepts after its `trim` setter ran. */
  predicate Present(s: Option<string>) {
    s.Some? && Trim(s.value) != []
  }

  /** The cart path holds ObjectId references: a body cart with any other entry fails validation. */
  predicate CartCasts(cart: Option<seq<Id>>) {
    cart.Some? ==> forall i :: 0 <= i < |cart.value| ==> IsObjectId(cart.value[i])
  }

  /** `new User({...req.body, passwordHash})` after validation: `None` when a required path is missing or blank, or
      a cart entry does not cast.
      The spread lets the body choose `isAdmin`, the cart and the reset code with its expiry; the hash always
      comes from the password. */
  function NewUser(b: RegisterBody, hash: string): (r: Option<User>)
    ensures r.Some? <==> Present(b.name) && Present(b.email) && Present(b.phone) && hash != [] && CartCasts(b.cart)
    ensures r.Some? ==> && r.value.email == Trim(b.email.value) && r.value.passwordHash == hash
                        && r.value.isAdmin == (b.isAdmin == Some(true))
                        && r.value.cart == b.cart.GetOr([])
                        && r.value.resetPasswordOtp == b.resetPasswordOtp
                        && r.value.resetPasswordOtpExpires == b.resetPasswordOtpExpires
  {
    if Present(b.name) && Present(b.email) && Present(b.phone) && hash != [] && CartCasts(b.cart) then
      Some(User(Trim(b.name.value), Trim(b.email.value), hash, b.isAdmin.GetOr(false), Trim(b.phone.value),
                b.cart.GetOr([]), b.resetPasswordOtp, b.resetPasswordOtpExpires))
    else None
  }

  /** A registration body that names the reset code 1 creates a user whose password reset is already open:
      `resetPassword` accepts for that email with no code ever issued or verified. */
  lemma RegisteredSentinelOpensReset(b: RegisterBody, hash: string)
    requires NewUser(b, hash).Some? && b.resetPasswordOtp == Some(Confirmed)
    ensures ResetAccepts(NewUser(b, hash).value)
  {
  }

  /** The result of `user.save()` for a new user. */
  datatype SaveOutcome = Saved(user: User) | Invalid | DuplicateKey(code: int, message: string)

  /** The MongoDB error for a second document with the same email under the unique index. */
  function DuplicateEmailError(collection: string, email: string): (o: SaveOutcome)
    ensures o.DuplicateKey? && o.code == 11000
  {
    DuplicateKey(11000, "E11000 duplicate key error collection: " + collection + " index: email_1 dup key: { email: \""
                        + email + "\" }")
  }

  /** Saving a new user: validation first, then the unique index, then the insert under `newId`. */
  method SaveNewUser(db: Db, b: RegisterBody, hash: string, newId: Id, collection: string) returns (o: SaveOutcome)
    requires newId !in db.users
    modifies db`users
    ensures NewUser(b, hash).None? ==> o == Invalid && db.users == old(db.users)
    ensures NewUser(b, hash).Some? && HasEmail(old(db.users), NewUser(b, hash).value.email) ==>
              o == DuplicateEmailError(collection, NewUser(b, hash).value.email) && db.users == old(db.users)
    ensures NewUser(b, hash).Some? && !HasEmail(old(db.users), NewUser(b, hash).value.email) ==>
              o == Saved(NewUser(b, hash).value) && db.users == old(db.users)[newId := o.user]
  {
    var u := NewUser(b, hash);
    if u.None? {
      return Invalid;
    }
    if HasEmail(db.users, u.value.email) {
      return DuplicateEmailError(collection, u.value.email);
    }
    db.users := db.users[newId := u.value];
    o := Saved(u.value);
  }

  /** An insert that passed the unique index keeps emails unique. */
  lemma InsertKeepsEmailsUnique(users: map<Id, User>, newId: Id, u: User)
    requires UniqueEmails(users) && newId !in users && !HasEmail(users, u.email)
    ensures UniqueEmails(users[newId := u])
  {
  }

  /** `register`. `issues` are the validators' findings and `hash` is `bcrypt.hashSync(password, 8)`. The 201
      reply carries the stored user, password hash included. */
  method Register(db: Db, issues: seq<Finding>, b: RegisterBody, hash: string, newId: Id, collection: string)
    returns (reply: Reply)
    requires newId !in db.users
    modifies db`users
    ensures issues != [] ==> reply == Reply(400, FieldErrors(MessagesOnly(issues))) && db.users == old(db.users)
    ensures reply.Is(201) <==> issues == [] && NewUser(b, hash).Some?
                                     && !HasEmail(old(db.users), NewUser(b, hash).value.email)
    ensures reply.Is(201) ==> && db.users == old(db.users)[newId := NewUser(b, hash).value]
                                    && reply.body == Fields(UserKeys(NewUser(b, hash).value))
    ensures issues == [] && NewUser(b, hash).Some? && HasEmail(old(db.users), NewUser(b, hash).value.email) ==>
              reply == Reply(409, Failure("Authentication Error", EmailTaken)) && db.users == old(db.users)
    ensures issues == [] && NewUser(b, hash).None? ==>
              reply == Reply(500, Thrown("ValidationError")) && db.users == old(db.users)
  {
    if issues != [] {
      return Reply(400, FieldErrors(MessagesOnly(issues)));
    }
    var o := SaveNewUser(db, b, hash, newId, collection);
    match o
    case Saved(u) => reply := Reply(201, Fields(UserKeys(u)));
    case DuplicateKey(code, _) =>
      if code == 11000 {
        reply := Reply(409, Failure("Authentication Error", EmailTaken));
      } else {
        reply := Reply(500, Thrown("MongoServerError"));
      }
    case Invalid => reply := Reply(500, Thrown("ValidationError"));
  }

  /** The token upsert of a login, for user `uid`. */
  method UpsertSession(db: Db, uid: Id, access: string, refresh: string, newTokenId: Id)
    requires newTokenId !in db.tokens
    modifies db`tokens
    ensures Upserted(old(db.tokens), db.tokens, uid, access, refresh)
  {
    if exists k :: k in db.tokens && db.tokens[k].userId == uid {
      var k :| k in db.tokens && db.tokens[k].userId == uid;
      db.tokens := db.tokens[k := TokenDoc(uid, Some(access), refresh)];
    } else {
      assert RecordsOf(db.tokens, uid) == {};
      db.tokens := db.tokens[newTokenId := TokenDoc(uid, Some(access), refresh)];
    }
  }

  /** The keys of the login reply: the user without its hash, plus both tokens. */
  function LoginKeys(u: User): (keys: set<string>)
    ensures "passwordHash" !in keys && "accessToken" in keys && "refreshToken" in keys && "id" in keys
  {
    UserKeys(u) - {"passwordHash"} + {"accessToken", "refreshToken"}
  }

  /** `login`. `passwordMatches(hash)` is `bcrypt.compare(password, hash)`; `access` and `refresh` are the two
      signed tokens. */
  method Login(db: Db, email: string, passwordMatches: string -> bool, access: string, refresh: string,
               newTokenId: Id) returns (reply: Reply)
    requires newTokenId !in db.tokens
    modifies db`tokens
    ensures !HasEmail(db.users, email) ==>
              reply == Reply(404, Message(UserNotFoundLogin)) && db.tokens == old(db.tokens)
    ensures reply.Is(400) ==>
              && reply.body == Message(IncorrectPassword) && db.tokens == old(db.tokens)
              && exists k :: k in db.users && db.users[k].email == email && !passwordMatches(db.users[k].passwordHash)
    ensures reply.Is(200) ==>
              exists k :: && k in db.users && db.users[k].email == email && passwordMatches(db.users[k].passwordHash)
                          && Upserted(old(db.tokens), db.tokens, k, access, refresh)
                          && reply.body == Fields(LoginKeys(db.users[k]))
    ensures HasEmail(db.users, email) ==> reply.Is(200) || reply.Is(400)
  {
    if !HasEmail(db.users, email) {
      return Reply(404, Message(UserNotFoundLogin));
    }
    var k :| k in db.users && db.users[k].email == email;
    var user := db.users[k];
    if !passwordMatches(user.passwordHash) {
      return Reply(400, Message(IncorrectPassword));
    }
    UpsertSession(db, k, access, refresh, newTokenId);
    reply := Reply(200, Fields(LoginKeys(user)));
  }

  /** `header.replace("Bearer ", "").trim()`: the access token a header names. */
  function HeaderToken(header: string): string {
    Trim(ReplaceFirst(header, "Bearer ", ""))
  }

  /** A header of the usual form names the token after the scheme, surrounding blanks aside. */
  lemma HeaderTokenOfBearer(token: string)
    ensures HeaderToken("Bearer " + token) == Trim(token)
  {
    var h := "Bearer " + token;
    assert h[0..7] == "Bearer ";
    assert IndexOf(h, "Bearer ") == Some(0);
    assert ReplaceFirst(h, "Bearer ", "") == h[7..];
    assert h[7..] == token;
  }

  /** `!header`: a missing or empty Authorization header. */
  predicate NoHeader(header: Option<string>) {
    header.None? || header == Some("")
  }

  /** `verifyToken`. `decodeId(t)` is the `id` claim of `jwt.decode(t)` (`None` when it cannot be decoded, so
      reading `id` throws); `verifyRefresh(t)` is `None` when `jwt.verify` accepts `t`, else the error it throws. */
  method VerifyToken(db: Db, header: Option<string>, decodeId: string -> Option<Id>,
                     verifyRefresh: string -> Option<string>) returns (reply: Reply)
    ensures NoHeader(header) ==> reply == Reply(200, Flag(false))
    ensures !NoHeader(header) && !HasAccessToken(db.tokens, HeaderToken(header.value)) ==>
              reply == Reply(200, Flag(false))
    ensures reply == Reply(200, Flag(true)) ==>
              && !NoHeader(header)
              && exists k :: && k in db.tokens && db.tokens[k].accessToken == Some(HeaderToken(header.value))
                             && decodeId(db.tokens[k].refreshToken).Some?
                             && decodeId(db.tokens[k].refreshToken).value in db.users
                             && verifyRefresh(db.tokens[k].refreshToken).None?
  {
    if NoHeader(header) {
      return Reply(200, Flag(false));
    }
    var key := HeaderToken(header.value);
    if !HasAccessToken(db.tokens, key) {
      return Reply(200, Flag(false));
    }
    var k :| k in db.tokens && db.tokens[k].accessToken == Some(key);
    var token := db.tokens[k];
    var id := decodeId(token.refreshToken);
    if id.None? {
      return Reply(500, Thrown("TypeError"));
    }
    if !IsObjectId(id.value) {
      return Reply(500, Thrown("CastError"));
    }
    if id.value !in db.users {
      return Reply(200, Flag(false));
    }
    var failure := verifyRefresh(token.refreshToken);
    if failure.Some? {
      return Reply(500, Thrown(failure.value));
    }
    reply := Reply(200, Flag(true));
  }

  /** `forgotPassword`. `r` is the value of `Math.random()`; `mailSent` says whether delivery succeeded. The
      code is saved before the mail goes out, so it stays issued when delivery fails. */
  method ForgotPassword(db: Db, email: string, r: real, now: int, mailSent: bool) returns (reply: Reply)
    requires 0.0 <= r < 1.0
    modifies db`users
    ensures !HasEmail(old(db.users), email) ==> reply == Reply(404, Message(NoSuchEmail)) && db.users == old(db.users)
    ensures HasEmail(old(db.users), email) ==>
              && (exists k :: && k in old(db.users) && old(db.users)[k].email == email
                              && db.users == old(db.users)[k := Issue(old(db.users)[k], IssuedCode(r), now)])
              && reply == (if mailSent then Reply(200, Message(MailSent)) else Reply(500, Failure("Error", MailFailed)))
  {
    if !HasEmail(db.users, email) {
      return Reply(404, Message(NoSuchEmail));
    }
    var k :| k in db.users && db.users[k].email == email;
    var otp := IssuedCode(r);
    var user := db.users[k];
    user := user.(resetPasswordOtp := Some(otp));
    user := user.(resetPasswordOtpExpires := Some(now + Lifetime));
    db.users := db.users[k := user];
    if !mailSent {
      return Reply(500, Failure("Error", MailFailed));
    }
    reply := Reply(200, Message(MailSent));
  }

  /** `verifyPasswordResetOTP`. `otp` is `+req.body.otp` when that is an integer, `None` otherwise. */
  method VerifyPasswordResetOtp(db: Db, email: string, otp: Option<int>, now: int) returns (reply: Reply)
    modifies db`users
    ensures !HasEmail(old(db.users), email) ==> reply == Reply(404, Message(NoSuchEmail)) && db.users == old(db.users)
    ensures HasEmail(old(db.users), email) ==> reply.Is(200) || reply.Is(401)
    ensures reply.Is(200) ==>
              && reply.body == Message(OtpVerified)
              && exists k :: && k in old(db.users) && old(db.users)[k].email == email
                             && VerifyAccepts(old(db.users)[k], otp, now)
                             && db.users == old(db.users)[k := Confirm(old(db.users)[k])]
    ensures reply.Is(401) ==>
              && reply.body == Message(InvalidOtp) && db.users == old(db.users)
              && exists k :: k in old(db.users) && old(db.users)[k].email == email && !VerifyAccepts(old(db.users)[k], otp, now)
  {
    if !HasEmail(db.users, email) {
      return Reply(404, Message(NoSuchEmail));
    }
    var k :| k in db.users && db.users[k].email == email;
    var user := db.users[k];
    if user.resetPasswordOtp != otp || otp.None?
       || (user.resetPasswordOtpExpires.Some? && now > user.resetPasswordOtpExpires.value) {
      return Reply(401, Message(InvalidOtp));
    }
    user := user.(resetPasswordOtp := Some(Confirmed));
    user := user.(resetPasswordOtpExpires := None);
    db.users := db.users[k := user];
    reply := Reply(200, Message(OtpVerified));
  }

  /** `resetPassword`. `hash` is `bcrypt.hashSync(newPassword, 8)`. */
  method ResetPassword(db: Db, issues: seq<Finding>, email: string, hash: string) returns (reply: Reply)
    modifies db`users
    ensures issues != [] ==> reply == Reply(400, FieldErrors(MessagesOnly(issues))) && db.users == old(db.users)
    ensures issues == [] && !HasEmail(old(db.users), email) ==>
              reply == Reply(404, Message(NoSuchEmail)) && db.users == old(db.users)
    ensures reply.Is(200) ==>
              && issues == [] && reply.body == Message(PasswordReset)
              && exists k :: && k in old(db.users) && old(db.users)[k].email == email && ResetAccepts(old(db.users)[k])
                             && db.users == old(db.users)[k := Reset(old(db.users)[k], hash)]
    ensures reply.Is(401) ==>
              && reply.body == Message(ConfirmFirst) && db.users == old(db.users)
              && exists k :: k in old(db.users) && old(db.users)[k].email == email && !ResetAccepts(old(db.users)[k])
    ensures issues == [] && HasEmail(old(db.users), email) ==> reply.Is(200) || reply.Is(401)
  {
    if issues != [] {
      return Reply(400, FieldErrors(MessagesOnly(issues)));
    }
    if !HasEmail(db.users, email) {
      return Reply(404, Message(NoSuchEmail));
    }
    var k :| k in db.users && db.users[k].email == email;
    var user := db.users[k];
    if user.resetPasswordOtp != Some(Confirmed) {
      return Reply(401, Message(ConfirmFirst));
    }
    user := user.(passwordHash := hash);
    user := user.(resetPasswordOtp := None);
    db.users := db.users[k := user];
    reply := Reply(200, Message(PasswordReset));
  }

  /** `logout`: delete one session holding the token the header names, whether or not one does. */
  method Logout(db: Db, header: Option<string>) returns (reply: Reply)
    modifies db`tokens
    ensures NoHeader(header) ==> reply == Reply(401, Message(NoToken)) && db.tokens == old(db.tokens)
    ensures !NoHeader(header) ==>
              reply == Reply(200, Message(LoggedOut)) && DeletedOne(old(db.tokens), db.tokens, HeaderToken(header.value))
  {
    if NoHeader(header) {
      return Reply(401, Message(NoToken));
    }
    var key := HeaderToken(header.value);
    if HasAccessToken(db.tokens, key) {
      var k :| k in db.tokens && db.tokens[k].accessToken == Some(key);
      db.tokens := db.tokens - {k};
    }
    reply := Reply(200, Message(LoggedOut));
  }
}
