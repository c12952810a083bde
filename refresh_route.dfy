/** `POST /api/auth/refresh`: renew a session from its refresh token,
    rotating the token. Checks run in order (rate limit, token present,
    token verifies, token matches a live stored record) and every failure
    returns before anything is written. */
module RefreshRoute {
  import opened Wrappers
  import opened Json
  import opened ApiUtils
  import opened RateLimit
  import opened Store
  import opened Auth

  /** The rate-limit key: one bucket per client address. */
  function RefreshKey(forwardedFor: Option<string>): string
  {
    "refresh:" + GetClientIp(forwardedFor)
  }

  /** A token the route accepts as present (an empty cookie is falsy). */
  predicate Presented(token: Option<string>)
  {
    token.Some? && token.value != ""
  }

  /** Whether the limiter lets this refresh attempt through. */
  predicate RefreshAllowed(entries: map<string, Entry>, forwardedFor: Option<string>, now: int)
  {
    Step(entries, RefreshKey(forwardedFor), AuthRateLimit, now).1.success
  }

  const TooManyRefreshes: Response := ApiError("Too many refresh attempts. Please try again later.", 429)
  const NoRefreshToken: Response := ApiError("No refresh token provided", 401)
  const InvalidOrExpired: Response := ApiError("Invalid or expired refresh token", 401)
  const InvalidRefreshToken: Response := ApiError("Invalid refresh token", 401)
  const Refreshed: Response := ApiSuccess(JObj(map["message" := JStr("Tokens refreshed successfully")]))

  /** The loop over the stored candidates: stop at the first whose hash
      accepts the token. */
  method MatchesAny(candidates: seq<RefreshRecord>, token: string, matches: Matcher) returns (found: bool)
    ensures found <==> AnyMatch(candidates, token, matches)
  {
    found := false;
    for i := 0 to |candidates|
      invariant !found
      invariant forall j :: 0 <= j < i ==> !matches(token, candidates[j].tokenHash)
    {
      if matches(token, candidates[i].tokenHash) {
        found := true;
        break;
      }
    }
  }

  /** The record a successful refresh stores for the new token. */
  function NewRecord(userId: string, newHash: string, now: int): (r: RefreshRecord)
    ensures r.userId == userId && r.tokenHash == newHash
    ensures r.expiresAt == now + RefreshRecordLifetimeMs
  {
    RefreshRecord(userId, newHash, now + RefreshRecordLifetimeMs)
  }

  /** The whole route at time `now`. `newHash` is the salted hash bcrypt
      computes for the new refresh token (the salt is random, so the
      environment chooses it); `production` is the deployment mode. */
  method Post(limiter: RateLimiter, db: Db, jar: CookieJar, c: Crypto, forwardedFor: Option<string>,
              now: int, newHash: string, production: bool) returns (resp: Response)
    modifies limiter, db, jar
    ensures limiter.entries == Step(old(limiter.entries), RefreshKey(forwardedFor), AuthRateLimit, now).0
    ensures db.users == old(db.users) && db.transcripts == old(db.transcripts) && db.tasks == old(db.tasks)
    ensures !RefreshAllowed(old(limiter.entries), forwardedFor, now) ==>
      resp == TooManyRefreshes
    ensures var token := GetTokensFromCookies(old(jar.cookies)).refreshToken;
      RefreshAllowed(old(limiter.entries), forwardedFor, now) && !Presented(token) ==>
      resp == NoRefreshToken
    ensures var token := GetTokensFromCookies(old(jar.cookies)).refreshToken;
      RefreshAllowed(old(limiter.entries), forwardedFor, now) && Presented(token) &&
      c.verify(Refresh, token.value, now).None? ==>
      resp == InvalidOrExpired
    ensures var token := GetTokensFromCookies(old(jar.cookies)).refreshToken;
      RefreshAllowed(old(limiter.entries), forwardedFor, now) && Presented(token) &&
      c.verify(Refresh, token.value, now).Some? &&
      !AnyMatch(LiveFor(old(db.refreshTokens), c.verify(Refresh, token.value, now).value.userId, now), token.value, c.matches) ==>
      resp == InvalidRefreshToken
    ensures var token := GetTokensFromCookies(old(jar.cookies)).refreshToken;
      RefreshAllowed(old(limiter.entries), forwardedFor, now) && Presented(token) &&
      c.verify(Refresh, token.value, now).Some? &&
      AnyMatch(LiveFor(old(db.refreshTokens), c.verify(Refresh, token.value, now).value.userId, now), token.value, c.matches) ==>
      resp == Refreshed
    ensures resp != Refreshed ==> db.refreshTokens == old(db.refreshTokens) && jar.cookies == old(jar.cookies)
    ensures resp == Refreshed ==>
      var token := GetTokensFromCookies(old(jar.cookies)).refreshToken;
      Presented(token) && c.verify(Refresh, token.value, now).Some? &&
      var claims := c.verify(Refresh, token.value, now).value;
      AnyMatch(LiveFor(old(db.refreshTokens), claims.userId, now), token.value, c.matches) &&
      db.refreshTokens == Rotate(old(db.refreshTokens), claims.userId, NewRecord(claims.userId, newHash, now)) &&
      jar.cookies == WithAuthCookies(old(jar.cookies), SignToken(c, Access, claims, now), SignToken(c, Refresh, claims, now), production)
  {
    var limit := limiter.Check(RefreshKey(forwardedFor), AuthRateLimit, now);
    if !limit.success {
      return TooManyRefreshes;
    }
    var token := GetTokensFromCookies(jar.cookies).refreshToken;
    if token.None? || token.value == "" {
      return NoRefreshToken;
    }
    var payload := c.verify(Refresh, token.value, now);
    if payload.None? {
      return InvalidOrExpired;
    }
    var claims := payload.value;
    var stored := LiveFor(db.refreshTokens, claims.userId, now);
    var validToken := MatchesAny(stored, token.value, c.matches);
    if !validToken {
      return InvalidRefreshToken;
    }
    db.DeleteRefreshTokensOf(claims.userId);
    var newAccessToken := SignToken(c, Access, claims, now);
    var newRefreshToken := SignToken(c, Refresh, claims, now);
    db.CreateRefreshToken(NewRecord(claims.userId, newHash, now));
    jar.SetAuthCookies(newAccessToken, newRefreshToken, production);
    resp := Refreshed;
  }

  /** A successful refresh spends the presented token: as long as the new
      hash accepts only the new token and the new token differs from the
      old one, the old token matches no live record of the user again. */
  lemma RefreshedTokenIsSingleUse(records: seq<RefreshRecord>, c: Crypto, token: string, claims: Claims,
                                  now: int, newHash: string, later: int)
    requires forall t :: c.matches(t, newHash) ==> t == SignToken(c, Refresh, claims, now)
    requires token != SignToken(c, Refresh, claims, now)
    ensures !AnyMatch(LiveFor(Rotate(records, claims.userId, NewRecord(claims.userId, newHash, now)), claims.userId, later),
                      token, c.matches)
  {
    RotationIsSingleUse(records, claims.userId, NewRecord(claims.userId, newHash, now), token, c.matches, later);
  }

  /** The new refresh token works until the new record expires, seven days on. */
  lemma NewRefreshTokenWorks(records: seq<RefreshRecord>, c: Crypto, claims: Claims,
                             now: int, newHash: string, later: int)
    requires c.matches(SignToken(c, Refresh, claims, now), newHash)
    requires later < now + RefreshRecordLifetimeMs
    ensures AnyMatch(LiveFor(Rotate(records, claims.userId, NewRecord(claims.userId, newHash, now)), claims.userId, later),
                     SignToken(c, Refresh, claims, now), c.matches)
  {
    RotationNewTokenWorks(records, claims.userId, NewRecord(claims.userId, newHash, now),
                          SignToken(c, Refresh, claims, now), c.matches, later);
  }
}
