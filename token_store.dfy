/** The session records of the token collection and the three ways the handlers change them: the upsert of a
    login, the delete of a logout, and the access-token overwrite of a refresh. */
module TokenStore {
  import opened Common
  import opened Records

  /** The ids of the records held for user `uid`. */
  function RecordsOf(tokens: map<Id, TokenDoc>, uid: Id): (ks: set<Id>)
    ensures forall k :: k in ks <==> k in tokens && tokens[k].userId == uid
  {
    set k | k in tokens && tokens[k].userId == uid
  }

  /** At most one record per user. */
  predicate OneTokenPerUser(tokens: map<Id, TokenDoc>) {
    forall a, b :: a in tokens && b in tokens && tokens[a].userId == tokens[b].userId ==> a == b
  }

  /** At most one record per access token. */
  predicate UniqueAccessTokens(tokens: map<Id, TokenDoc>) {
    forall a, b :: a in tokens && b in tokens && tokens[a].accessToken.Some? && tokens[a].accessToken == tokens[b].accessToken
                   ==> a == b
  }

  predicate HasAccessToken(tokens: map<Id, TokenDoc>, key: string) {
    exists k :: k in tokens && tokens[k].accessToken == Some(key)
  }

  /** `findOneAndUpdate({userId}, {accessToken, refreshToken}, {upsert: true})`: some record of the user gets both
      tokens, or, when the user has none, a record holding them is inserted under a new id. */
  predicate Upserted(before: map<Id, TokenDoc>, after: map<Id, TokenDoc>, uid: Id, access: string, refresh: string) {
    exists k :: && k in after && after == before[k := TokenDoc(uid, Some(access), refresh)]
                && (k in before ==> before[k].userId == uid)
                && (k !in before ==> RecordsOf(before, uid) == {})
  }

  /** A login keeps one record per user, and leaves exactly one for the user who logged in, holding the new
      tokens; other users' records are untouched. */
  lemma {:induction false} UpsertKeepsOnePerUser(before: map<Id, TokenDoc>, after: map<Id, TokenDoc>, uid: Id,
                                                 access: string, refresh: string)
    requires OneTokenPerUser(before) && Upserted(before, after, uid, access, refresh)
    ensures OneTokenPerUser(after)
    ensures exists k :: RecordsOf(after, uid) == {k} && after[k] == TokenDoc(uid, Some(access), refresh)
    ensures forall k :: k in before && before[k].userId != uid ==> k in after && after[k] == before[k]
  {
    var k :| && after == before[k := TokenDoc(uid, Some(access), refresh)]
             && (k in before ==> before[k].userId == uid)
             && (k !in before ==> RecordsOf(before, uid) == {});
    forall a, b | a in after && b in after && after[a].userId == after[b].userId ensures a == b {
      if a != k && b != k {
        assert after[a] == before[a] && after[b] == before[b];
      }
    }
    assert RecordsOf(after, uid) == {k};
  }

  /** `findOneAndDelete({accessToken: key})`: one record holding the key is removed, if there is one. */
  predicate DeletedOne(before: map<Id, TokenDoc>, after: map<Id, TokenDoc>, key: string) {
    if HasAccessToken(before, key) then
      exists k :: k in before && before[k].accessToken == Some(key) && after == before - {k}
    else after == before
  }

  /** With access tokens unique, after a logout no record holds the key, and every other record is kept. */
  lemma {:induction false} DeleteRemovesKey(before: map<Id, TokenDoc>, after: map<Id, TokenDoc>, key: string)
    requires UniqueAccessTokens(before) && DeletedOne(before, after, key)
    ensures !HasAccessToken(after, key)
    ensures forall k :: k in before && before[k].accessToken != Some(key) ==> k in after && after[k] == before[k]
  {
    if HasAccessToken(before, key) {
      var k :| k in before && before[k].accessToken == Some(key) && after == before - {k};
      forall j | j in after ensures after[j].accessToken != Some(key) {
        assert j in before && before[j] == after[j] && j != k;
      }
    }
  }

  /** The refresh path: the record `k` gets a new access token and nothing else changes. */
  function Refreshed(tokens: map<Id, TokenDoc>, k: Id, access: string): (r: map<Id, TokenDoc>)
    requires k in tokens
    ensures r.Keys == tokens.Keys
    ensures r[k].accessToken == Some(access) && r[k].refreshToken == tokens[k].refreshToken
    ensures r[k].userId == tokens[k].userId
    ensures forall j :: j in tokens && j != k ==> r[j] == tokens[j]
  {
    tokens[k := tokens[k].(accessToken := Some(access))]
  }

  /** A refresh keeps one record per user. */
  lemma RefreshKeepsOnePerUser(tokens: map<Id, TokenDoc>, k: Id, access: string)
    requires k in tokens && OneTokenPerUser(tokens)
    ensures OneTokenPerUser(Refreshed(tokens, k, access))
  {
    var r := Refreshed(tokens, k, access);
    forall a, b | a in r && b in r && r[a].userId == r[b].userId ensures a == b {
      assert r[a].userId == tokens[a].userId && r[b].userId == tokens[b].userId;
    }
  }
}
