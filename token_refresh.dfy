/** The error handler of src/middlewares/error_handler.ts. Errors other than an "Invalid token" rejection are
    answered with their own status; for those it looks up the session by the rejected access token, checks the
    session's refresh token, signs a new access token, stores it on that session, and lets the request go on
    with the new token in both Authorization headers. */
module TokenRefresh {
  import opened Common
  import opened Strings
  import opened Records
  import opened TokenStore
  import opened Store

  const TokenMissing := "Token does not exist"
  const InvalidUser := "Invalid User"

  /** The error a middleware passed on: its `name`, `status` and `message`. */
  datatype Failed = Failed(name: string, status: int, message: string)

  /** What `jwt.verify(refreshToken, secret)` does: return the payload's `id`, or throw with a message. */
  datatype Claim = Valid(id: string) | Rejected(message: string)

  /** The handler either answers, or calls `next()` with the request's Authorization header rewritten and the
      response's Authorization header set. */
  datatype Outcome = Answered(reply: Reply) | Proceed(authorization: string, exposed: string)

  /** `tokenHeader?.split(" ")[1]`: `None` when there is no header or no second field. */
  function AccessTokenOf(header: Option<string>): (key: Option<string>)
    ensures key.Some? <==> header.Some? && ' ' in header.value
    ensures key.Some? ==> ' ' !in key.value
  {
    if header.None? then None
    else
      var parts := Split(header.value, ' ');
      if |parts| >= 2 then Some(parts[1])
      else
        assert Join(parts, ' ') == parts[0];
        None
  }

  /** For "Bearer <t>" with a blank-free token, the second field is the token. */
  lemma AccessTokenOfBearer(t: string)
    requires ' ' !in t
    ensures AccessTokenOf(Some("Bearer " + t)) == Some(t)
  {
    var h := "Bearer " + t;
    assert h[6] == ' ';
    assert FirstIndexOf(h, ' ') == 6 by {
      assert forall i :: 0 <= i < 6 ==> h[i] != ' ';
    }
    assert h[7..] == t;
    assert Split(t, ' ') == [t];
  }

  /** The session filter `{accessToken, refreshToken: {$exists: true}}`; the refresh token is a required path,
      so only the access token decides. An undefined key matches sessions without an access token. */
  predicate MatchesKey(doc: TokenDoc, key: Option<string>) {
    doc.accessToken == key
  }

  predicate HasSession(tokens: map<Id, TokenDoc>, key: Option<string>) {
    exists k :: k in tokens && MatchesKey(tokens[k], key)
  }

  /** The text of the CastError `User.findById` throws for an id that is not an ObjectId. */
  function CastMessage(id: string): string {
    "Cast to ObjectId failed for value \"" + id + "\" (type string) at path \"_id\" for model \"User\""
  }

  /** A refresh claim the handler can renew from: it verifies, names an ObjectId, and that user exists. */
  predicate Renews(c: Claim, users: map<Id, User>) {
    c.Valid? && IsObjectId(c.id) && c.id in users
  }

  /** A refresh claim that ends in the handler's catch: `jwt.verify` throws, or `findById` throws a CastError. */
  predicate Unusable(c: Claim) {
    c.Rejected? || !IsObjectId(c.id)
  }

  /** Every session the lookup may return holds a renewable refresh token. */
  predicate AllRenew(tokens: map<Id, TokenDoc>, key: Option<string>, verify: string -> Claim, users: map<Id, User>) {
    forall k :: k in tokens && MatchesKey(tokens[k], key) ==> Renews(verify(tokens[k].refreshToken), users)
  }

  /** Every session the lookup may return holds an unusable refresh token. */
  predicate AllUnusable(tokens: map<Id, TokenDoc>, key: Option<string>, verify: string -> Claim) {
    forall k :: k in tokens && MatchesKey(tokens[k], key) ==> Unusable(verify(tokens[k].refreshToken))
  }

  /** Every session the lookup may return names, through a valid refresh token, a user that does not exist. */
  predicate AllUnknownUser(tokens: map<Id, TokenDoc>, key: Option<string>, verify: string -> Claim, users: map<Id, User>) {
    forall k :: k in tokens && MatchesKey(tokens[k], key) ==>
      var c := verify(tokens[k].refreshToken);
      c.Valid? && IsObjectId(c.id) && c.id !in users
  }

  /** `errorHandler`. `verifyRefresh` stands for `jwt.verify` with the refresh secret and `sign(id, isAdmin)` for
      signing a new access token. */
  method HandleError(db: Db, err: Failed, header: Option<string>, verifyRefresh: string -> Claim,
                     sign: (Id, bool) -> string) returns (out: Outcome)
    modifies db`tokens
    ensures out.Answered? ==> db.tokens == old(db.tokens)
    ensures err.name != "UnauthorizedError" || !Contains(err.message, "Invalid token") ==>
              out == Answered(Reply(err.status, Failure(err.name, err.message)))
    ensures err.name == "UnauthorizedError" && Contains(err.message, "Invalid token")
            && !HasSession(old(db.tokens), AccessTokenOf(header)) ==>
              out == Answered(Reply(401, Failure("Authentication Error", TokenMissing)))
    ensures err.name == "UnauthorizedError" && Contains(err.message, "Invalid token") && out == Answered(Reply(404, Message(InvalidUser))) ==>
              exists k :: && k in old(db.tokens) && MatchesKey(old(db.tokens)[k], AccessTokenOf(header))
                          && verifyRefresh(old(db.tokens)[k].refreshToken).Valid?
                          && verifyRefresh(old(db.tokens)[k].refreshToken).id !in db.users
    ensures err.name == "UnauthorizedError" && Contains(err.message, "Invalid token")
            && HasSession(old(db.tokens), AccessTokenOf(header))
            && AllRenew(old(db.tokens), AccessTokenOf(header), verifyRefresh, db.users) ==>
              out.Proceed?
    ensures err.name == "UnauthorizedError" && Contains(err.message, "Invalid token")
            && HasSession(old(db.tokens), AccessTokenOf(header))
            && AllUnusable(old(db.tokens), AccessTokenOf(header), verifyRefresh) ==>
              out.Answered? && out.reply.Is(401) && out.reply.body.Failure?
              && out.reply.body.kind == "Authentication Error"
    ensures err.name == "UnauthorizedError" && Contains(err.message, "Invalid token")
            && HasSession(old(db.tokens), AccessTokenOf(header))
            && AllUnknownUser(old(db.tokens), AccessTokenOf(header), verifyRefresh, db.users) ==>
              out == Answered(Reply(404, Message(InvalidUser)))
    ensures out.Proceed? ==>
              && err.name == "UnauthorizedError" && Contains(err.message, "Invalid token")
              && exists k :: && k in old(db.tokens) && MatchesKey(old(db.tokens)[k], AccessTokenOf(header))
                             && verifyRefresh(old(db.tokens)[k].refreshToken).Valid?
                             && var id := verifyRefresh(old(db.tokens)[k].refreshToken).id;
                                && id in db.users
                                && var renewed := sign(id, db.users[id].isAdmin);
                                   && db.tokens == Refreshed(old(db.tokens), k, renewed)
                                   && out == Proceed("Bearer " + renewed, "Bearer " + renewed)
  {
    if err.name != "UnauthorizedError" || !Contains(err.message, "Invalid token") {
      return Answered(Reply(err.status, Failure(err.name, err.message)));
    }
    var accessToken := AccessTokenOf(header);
    if !HasSession(db.tokens, accessToken) {
      return Answered(Reply(401, Failure("Authentication Error", TokenMissing)));
    }
    var k :| k in db.tokens && MatchesKey(db.tokens[k], accessToken);
    var token := db.tokens[k];
    var userData := verifyRefresh(token.refreshToken);
    if userData.Rejected? {
      return Answered(Reply(401, Failure("Authentication Error", userData.message)));
    }
    if !IsObjectId(userData.id) {
      return Answered(Reply(401, Failure("Authentication Error", CastMessage(userData.id))));
    }
    if userData.id !in db.users {
      return Answered(Reply(404, Message(InvalidUser)));
    }
    var user := db.users[userData.id];
    var newAccessToken := sign(userData.id, user.isAdmin);
    var authorization := "Bearer " + newAccessToken;
    db.tokens := db.tokens[k := token.(accessToken := Some(newAccessToken))];
    out := Proceed(authorization, "Bearer " + newAccessToken);
  }
}
