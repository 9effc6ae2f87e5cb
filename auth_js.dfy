/** The plain-JavaScript copy of the authentication handlers (controllers/auth.js). It differs from the typed
    copy in the validation reply (fields listed), the duplicate test (on the error message), the login reply
    (built from the raw document), the issued code's range, a `verifyToken` that stays silent without a header,
    and an empty `logout`. */
module AuthJs {
  import opened Common
  import opened Strings
  import opened Records
  import opened Otp
  import opened TokenStore
  import opened Store
  import Auth

  /** The validation reply lists each finding's field and message. */
  function WithFields(issues: seq<Auth.Finding>): (r: seq<FieldError>)
    ensures |r| == |issues|
    ensures forall i :: 0 <= i < |issues| ==> r[i] == FieldError(Some(issues[i].path), issues[i].msg)
  {
    if issues == [] then [] else [FieldError(Some(issues[0].path), issues[0].msg)] + WithFields(issues[1..])
  }

  const DuplicateMarker := "email_1 dup key"

  /** The duplicate-key error of the email index names the index, so the message test recognises it just as
      the typed copy's code test does. */
  lemma DuplicateErrorIsRecognised(collection: string, email: string)
    ensures var o := Auth.DuplicateEmailError(collection, email);
            o.code == 11000 && Contains(o.message, DuplicateMarker)
  {
    var o := Auth.DuplicateEmailError(collection, email);
    var a := "E11000 duplicate key error collection: " + collection + " index: ";
    var b := ": { email: \"" + email + "\" }";
    assert o.message == a + DuplicateMarker + b;
    ContainsInfix(a, DuplicateMarker, b);
  }

  /** `register`. */
  method Register(db: Db, issues: seq<Auth.Finding>, b: Auth.RegisterBody, hash: string, newId: Id,
                  collection: string) returns (reply: Reply)
    requires newId !in db.users
    modifies db`users
    ensures issues != [] ==> reply == Reply(400, FieldErrors(WithFields(issues))) && db.users == old(db.users)
    ensures reply.Is(201) <==> issues == [] && Auth.NewUser(b, hash).Some?
                               && !HasEmail(old(db.users), Auth.NewUser(b, hash).value.email)
    ensures reply.Is(201) ==> && db.users == old(db.users)[newId := Auth.NewUser(b, hash).value]
                              && reply.body == Fields(UserKeys(Auth.NewUser(b, hash).value))
    ensures issues == [] && Auth.NewUser(b, hash).Some? && HasEmail(old(db.users), Auth.NewUser(b, hash).value.email) ==>
              reply == Reply(409, Failure("Authentication Error", Auth.EmailTaken)) && db.users == old(db.users)
    ensures issues == [] && Auth.NewUser(b, hash).None? ==>
              reply == Reply(500, Thrown("ValidationError")) && db.users == old(db.users)
  {
    if issues != [] {
      return Reply(400, FieldErrors(WithFields(issues)));
    }
    var o := Auth.SaveNewUser(db, b, hash, newId, collection);
    match o
    case Saved(u) => reply := Reply(201, Fields(UserKeys(u)));
    case DuplicateKey(_, message) =>
      DuplicateErrorIsRecognised(collection, Auth.NewUser(b, hash).value.email);
      if Contains(message, DuplicateMarker) {
        reply := Reply(409, Failure("Authentication Error", Auth.EmailTaken));
      } else {
        reply := Reply(500, Thrown("MongoServerError"));
      }
    case Invalid => reply := Reply(500, Thrown("ValidationError"));
  }

  /** The keys of the login reply: the raw document (no `id` virtual) with its hash set to `undefined`, which
      JSON drops, plus both tokens. */
  function LoginKeys(u: User): (keys: set<string>)
    ensures "passwordHash" !in keys && "id" !in keys && "accessToken" in keys && "refreshToken" in keys
  {
    UserKeys(u) - {"passwordHash", "id"} + {"accessToken", "refreshToken"}
  }

  /** `login`: the same lookups and session upsert as the typed copy. */
  method Login(db: Db, email: string, passwordMatches: string -> bool, access: string, refresh: string,
               newTokenId: Id) returns (reply: Reply)
    requires newTokenId !in db.tokens
    modifies db`tokens
    ensures !HasEmail(db.users, email) ==>
              reply == Reply(404, Message(Auth.UserNotFoundLogin)) && db.tokens == old(db.tokens)
    ensures reply.Is(400) ==>
              && reply.body == Message(Auth.IncorrectPassword) && db.tokens == old(db.tokens)
              && exists k :: k in db.users && db.users[k].email == email && !passwordMatches(db.users[k].passwordHash)
    ensures reply.Is(200) ==>
              exists k :: && k in db.users && db.users[k].email == email && passwordMatches(db.users[k].passwordHash)
                          && Upserted(old(db.tokens), db.tokens, k, access, refresh)
                          && reply.body == Fields(LoginKeys(db.users[k]))
    ensures HasEmail(db.users, email) ==> reply.Is(200) || reply.Is(400)
  {
    if !HasEmail(db.users, email) {
      return Reply(404, Message(Auth.UserNotFoundLogin));
    }
    var k :| k in db.users && db.users[k].email == email;
    var user := db.users[k];
    if !passwordMatches(user.passwordHash) {
      return Reply(400, Message(Auth.IncorrectPassword));
    }
    Auth.UpsertSession(db, k, access, refresh, newTokenId);
    reply := Reply(200, Fields(LoginKeys(user)));
  }

  /** `verifyToken`: without a header, `return res, json(false)` evaluates `json(false)` from body-parser and
      returns without answering; otherwise as in the typed copy. */
  method VerifyToken(db: Db, header: Option<string>, decodeId: string -> Option<Id>,
                     verifyRefresh: string -> Option<string>) returns (reply: Reply)
    ensures Auth.NoHeader(header) ==> reply == NoReply
    ensures !Auth.NoHeader(header) && !HasAccessToken(db.tokens, Auth.HeaderToken(header.value)) ==>
              reply == Reply(200, Flag(false))
    ensures reply == Reply(200, Flag(true)) ==>
              exists k :: && k in db.tokens && db.tokens[k].accessToken == Some(Auth.HeaderToken(header.value))
                          && decodeId(db.tokens[k].refreshToken).Some?
                          && decodeId(db.tokens[k].refreshToken).value in db.users
                          && verifyRefresh(db.tokens[k].refreshToken).None?
  {
    if Auth.NoHeader(header) {
      return NoReply;
    }
    reply := Auth.VerifyToken(db, header, decodeId, verifyRefresh);
  }

  /** `forgotPassword`, issuing `Math.floor(1000 * Math.random() * 9000)`. */
  method ForgotPassword(db: Db, email: string, r: real, now: int, mailSent: bool) returns (reply: Reply)
    requires 0.0 <= r < 1.0
    modifies db`users
    ensures !HasEmail(old(db.users), email) ==>
              reply == Reply(404, Message(Auth.NoSuchEmail)) && db.users == old(db.users)
    ensures HasEmail(old(db.users), email) ==>
              && (exists k :: && k in old(db.users) && old(db.users)[k].email == email
                              && db.users == old(db.users)[k := Issue(old(db.users)[k], IssuedCodeJs(r), now)])
              && reply == (if mailSent then Reply(200, Message(Auth.MailSent))
                           else Reply(500, Failure("Error", Auth.MailFailed)))
  {
    if !HasEmail(db.users, email) {
      return Reply(404, Message(Auth.NoSuchEmail));
    }
    var k :| k in db.users && db.users[k].email == email;
    var user := db.users[k];
    user := user.(resetPasswordOtp := Some(IssuedCodeJs(r)));
    user := user.(resetPasswordOtpExpires := Some(now + Lifetime));
    db.users := db.users[k := user];
    if !mailSent {
      return Reply(500, Failure("Error", Auth.MailFailed));
    }
    reply := Reply(200, Message(Auth.MailSent));
  }

  /** `verifyPasswordResetOTP`: `Date.now() > undefined` is false, so a missing expiry passes as in the typed
      copy. */
  method VerifyPasswordResetOtp(db: Db, email: string, otp: Option<int>, now: int) returns (reply: Reply)
    modifies db`users
    ensures !HasEmail(old(db.users), email) ==>
              reply == Reply(404, Message(Auth.NoSuchEmail)) && db.users == old(db.users)
    ensures reply.Is(200) ==>
              exists k :: && k in old(db.users) && old(db.users)[k].email == email
                          && VerifyAccepts(old(db.users)[k], otp, now)
                          && db.users == old(db.users)[k := Confirm(old(db.users)[k])]
    ensures reply.Is(401) ==>
              && reply.body == Message(Auth.InvalidOtp) && db.users == old(db.users)
              && exists k :: k in old(db.users) && old(db.users)[k].email == email && !VerifyAccepts(old(db.users)[k], otp, now)
  {
    reply := Auth.VerifyPasswordResetOtp(db, email, otp, now);
  }

  /** `resetPassword`, listing fields in the validation reply. */
  method ResetPassword(db: Db, issues: seq<Auth.Finding>, email: string, hash: string) returns (reply: Reply)
    modifies db`users
    ensures issues != [] ==> reply == Reply(400, FieldErrors(WithFields(issues))) && db.users == old(db.users)
    ensures issues == [] && !HasEmail(old(db.users), email) ==>
              reply == Reply(404, Message(Auth.NoSuchEmail)) && db.users == old(db.users)
    ensures reply.Is(200) ==>
              exists k :: && k in old(db.users) && old(db.users)[k].email == email && ResetAccepts(old(db.users)[k])
                          && db.users == old(db.users)[k := Reset(old(db.users)[k], hash)]
    ensures reply.Is(401) ==>
              && db.users == old(db.users)
              && exists k :: k in old(db.users) && old(db.users)[k].email == email && !ResetAccepts(old(db.users)[k])
  {
    if issues != [] {
      return Reply(400, FieldErrors(WithFields(issues)));
    }
    reply := Auth.ResetPassword(db, [], email, hash);
  }

  /** `logout`: the handler's body is empty, so no session is removed and no answer is sent. */
  method Logout(db: Db, header: Option<string>) returns (reply: Reply)
    ensures reply == NoReply
  {
    reply := NoReply;
  }
}
