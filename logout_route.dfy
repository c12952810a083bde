/** `POST /api/auth/logout`: revoke every refresh record of the current
    user, if there is one, and clear both session cookies, on the error path
    too. */
module LogoutRoute {
  import opened Wrappers
  import opened Json
  import opened ApiUtils
  import opened Store
  import opened Auth
  import LoginRoute

  const LoggedOut: Response := ApiSuccess(JObj(map["message" := JStr("Logged out successfully")]))

  /** Whether the route reaches the database: `getCurrentUser` queries it
      only for an access token that is present and verifies. */
  predicate ReachesDatabase(cookies: map<string, Cookie>, c: Crypto, now: int)
  {
    var token := GetTokensFromCookies(cookies).accessToken;
    token.Some? && token.value != "" && c.verify(Access, token.value, now).Some?
  }

  /** `dbFails` stands for a database call that throws (the user lookup or
      the deletion). It takes effect only when the route reaches the
      database, and the deletion then does not happen. */
  method Post(db: Db, jar: CookieJar, c: Crypto, now: int, dbFails: bool) returns (resp: Response)
    modifies db, jar
    ensures jar.cookies == WithoutAuthCookies(old(jar.cookies))
    ensures db.users == old(db.users) && db.transcripts == old(db.transcripts) && db.tasks == old(db.tasks)
    ensures var failed := dbFails && ReachesDatabase(old(jar.cookies), c, now);
      (failed ==> resp == LoginRoute.Unexpected && db.refreshTokens == old(db.refreshTokens)) &&
      (!failed ==> resp == LoggedOut)
    ensures !(dbFails && ReachesDatabase(old(jar.cookies), c, now)) ==>
      var user := GetCurrentUser(old(jar.cookies), old(db.users), c, now);
      db.refreshTokens == if user.Some? then RevokeAll(old(db.refreshTokens), user.value.id) else old(db.refreshTokens)
  {
    if dbFails && ReachesDatabase(jar.cookies, c, now) {
      jar.ClearAuthCookies();
      return LoginRoute.Unexpected;
    }
    var user := GetCurrentUser(jar.cookies, db.users, c, now);
    if user.Some? {
      db.DeleteRefreshTokensOf(user.value.id);
    }
    jar.ClearAuthCookies();
    resp := LoggedOut;
  }

  /** Logging out ends every session of the user and only theirs: no token
      of the user refreshes afterwards, and every other user keeps their
      records as they were. */
  lemma LogoutEndsOnlyOwnSessions(records: seq<RefreshRecord>, userId: string, token: string,
                                  matches: Matcher, later: int, other: string)
    requires other != userId
    ensures !AnyMatch(LiveFor(RevokeAll(records, userId), userId, later), token, matches)
    ensures RecordsOf(RevokeAll(records, userId), other) == RecordsOf(records, other)
  {
    RevokeKillsEveryChain(records, userId, token, matches, later);
    RevokeAllTouchesOnlyItsUser(records, userId, other);
  }
}
