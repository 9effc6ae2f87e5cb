/** The access gate of src/middlewares/jwt.ts: the paths that skip token checks, and the revocation test run
    for every other request. Signature checking itself is a parameter. */
module AccessControl {
  import opened Common
  import opened Strings
  import opened Records
  import opened TokenStore
  import Auth

  const SecretMissing := "ACCESS_TOKEN_SECRET is not defined in environment variables"

  /** The `unless` list for the API prefix `api`. */
  function ExemptPaths(api: string): (paths: seq<string>)
    ensures |paths| == 12
  {
    [api + "/login", api + "/login/",
     api + "/register", api + "/register/",
     api + "/forgot-password", api + "/forgot-password/",
     api + "/verify-token", api + "/verify-token/",
     api + "/verify-otp", api + "/verify-otp/",
     api + "/reset-password", api + "/reset-password/"]
  }

  predicate IsExempt(api: string, path: string) {
    path in ExemptPaths(api)
  }

  datatype Gate = SecretError(message: string) | Gate(api: string)

  /** `authJwt()`: building the middleware fails when the secret is unset or empty; an unset or empty prefix
      becomes "". */
  function AuthJwt(apiPrefix: Option<string>, secret: Option<string>): (g: Gate)
    ensures g.SecretError? <==> secret.None? || secret == Some("")
    ensures g.SecretError? ==> g.message == SecretMissing
    ensures g.Gate? ==> g.api == (if apiPrefix.Some? then apiPrefix.value else "")
  {
    if secret.None? || secret == Some("") then SecretError(SecretMissing)
    else Gate(apiPrefix.GetOr(""))
  }

  /** Each of the twelve exempt paths is a distinct string, and the logout path is not one of them. */
  lemma LogoutIsNotExempt(api: string)
    ensures !IsExempt(api, api + "/logout")
    ensures forall i, j :: 0 <= i < j < 12 ==> ExemptPaths(api)[i] != ExemptPaths(api)[j]
  {
    var p := api + "/logout";
    var paths := ExemptPaths(api);
    assert paths[1][|api| + 4] == 'i' && p[|api| + 4] == 'o';
    forall i | 0 <= i < 12 ensures paths[i] != p {
      if i != 1 {
        assert |paths[i]| != |p|;
      }
    }
    forall i, j | 0 <= i < j < 12 ensures paths[i] != paths[j] {
      if |paths[i]| == |paths[j]| {
        assert i == 4 && j == 11;
        assert paths[i][|api| + 1] != paths[j][|api| + 1];
      }
    }
  }

  /** `/^\/api\/v1\/admin\//i` on the original URL. The pattern is ASCII, so the flag folds ASCII letters only. */
  predicate IsAdminRoute(url: string) {
    |url| >= 14 && Lower(url[..14]) == "/api/v1/admin/"
  }

  /** The admin test ignores letter case. */
  lemma AdminRouteIgnoresCase(url: string)
    ensures IsAdminRoute(Upper(url)) <==> IsAdminRoute(url)
  {
    if |url| >= 14 {
      assert Upper(url)[..14] == Upper(url[..14]);
      LowerOfUpper(url[..14]);
    }
  }

  /** The admin prefix is fixed: under another API prefix the admin routes are not recognised. */
  lemma AdminPrefixIsFixed()
    ensures !IsAdminRoute("/api/v2/admin/users")
    ensures IsAdminRoute("/API/V1/Admin/users")
  {
    assert Lower("/api/v2/admin/users"[..14])[6] == '2';
    assert Lower("/API/V1/Admin/users"[..14]) == "/api/v1/admin/";
  }

  /** `authHeader.replace("Bearer ", "  ").trim()`. */
  function RevocationKey(header: string): string {
    Trim(ReplaceFirst(header, "Bearer ", "  "))
  }

  /** For a Bearer header the revocation key is the rest of the header, trimmed: the same token logout
      deletes. */
  lemma RevocationKeyOfBearer(header: string)
    requires StartsWith(header, "Bearer ")
    ensures RevocationKey(header) == Trim(header[7..]) == Auth.HeaderToken(header)
  {
    assert header[0..7] == "Bearer ";
    assert IndexOf(header, "Bearer ") == Some(0);
    assert ReplaceFirst(header, "Bearer ", "  ") == "  " + header[7..];
    assert ReplaceFirst(header, "Bearer ", "") == header[7..];
    assert AllWhiteSpace("  ");
    TrimSkipsLeadingWhiteSpace("  ", header[7..]);
  }

  /** `isRevoked`: `isAdmin` is the truthiness of the token's `isAdmin` claim. */
  function IsRevoked(header: Option<string>, tokens: map<Id, TokenDoc>, isAdmin: bool, originalUrl: string): (r: bool)
    ensures header.None? || !StartsWith(header.value, "Bearer ") ==> r
    ensures !isAdmin && IsAdminRoute(originalUrl) ==> r
  {
    if header.None? || !StartsWith(header.value, "Bearer ") then true
    else
      var tokenDoc := HasAccessToken(tokens, RevocationKey(header.value));
      var adminFault := !isAdmin && IsAdminRoute(originalUrl);
      adminFault || !tokenDoc
  }

  /** A well-formed header is let through exactly when its token is stored, unless a non-admin asks for an
      admin route. */
  lemma NotRevokedExactly(header: string, tokens: map<Id, TokenDoc>, isAdmin: bool, url: string)
    requires StartsWith(header, "Bearer ")
    ensures !IsRevoked(Some(header), tokens, isAdmin, url) <==>
            HasAccessToken(tokens, Trim(header[7..])) && (isAdmin || !IsAdminRoute(url))
  {
    RevocationKeyOfBearer(header);
  }

  /** After a logout with the same header, the token is revoked for every later request. */
  lemma LogoutRevokes(before: map<Id, TokenDoc>, after: map<Id, TokenDoc>, header: string, isAdmin: bool, url: string)
    requires UniqueAccessTokens(before) && DeletedOne(before, after, Auth.HeaderToken(header))
    ensures IsRevoked(Some(header), after, isAdmin, url)
  {
    if StartsWith(header, "Bearer ") {
      RevocationKeyOfBearer(header);
      DeleteRemovesKey(before, after, Auth.HeaderToken(header));
    }
  }

  /** Whether a request reaches its handler: exempt paths always do; the others need a token whose signature
      checks (`signatureValid`) and that is not revoked. */
  function Admits(api: string, path: string, originalUrl: string, header: Option<string>, signatureValid: bool,
                  isAdmin: bool, tokens: map<Id, TokenDoc>): (ok: bool)
    ensures IsExempt(api, path) ==> ok
    ensures !IsExempt(api, path) && ok ==> signatureValid && header.Some? && StartsWith(header.value, "Bearer ")
  {
    IsExempt(api, path) || (signatureValid && !IsRevoked(header, tokens, isAdmin, originalUrl))
  }
}
