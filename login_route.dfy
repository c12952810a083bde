/** `POST /api/auth/login`. Checks run in order (rate limit, body
    validation, known e-mail, password); an unknown e-mail and a wrong
    password get the same answer. A success revokes every refresh record of
    the user before storing the new one. */
module LoginRoute {
  import opened Wrappers
  import opened Json
  import opened ApiUtils
  import opened RateLimit
  import opened Store
  import opened Auth
  import opened ValidationErrors
  import opened Validations
  import RefreshRoute

  function LoginKey(forwardedFor: Option<string>): string
  {
    "login:" + GetClientIp(forwardedFor)
  }

  /** Whether the limiter lets this login attempt through. */
  predicate LoginAllowed(entries: map<string, Entry>, forwardedFor: Option<string>, now: int)
  {
    Step(entries, LoginKey(forwardedFor), AuthRateLimit, now).1.success
  }

  const TooManyLogins: Response := ApiError("Too many login attempts. Please try again later.", 429)
  const Unexpected: Response := ApiError("An unexpected error occurred", 500)
  const BadCredentials: Response := ApiError("Invalid email or password", 401)

  /** The public part of a user, as the success body shows it. */
  function UserJson(u: User): Json
  {
    JObj(map["id" := JStr(u.id), "email" := JStr(u.email), "name" := JStr(u.name)])
  }

  function LoggedIn(u: User): Response
  {
    ApiSuccess(JObj(map["user" := UserJson(u), "message" := JStr("Login successful")]))
  }

  /** Whether the credentials of a valid body name a user and the password
      opens that user's hash. */
  predicate Authenticates(users: seq<User>, input: LoginInput, c: Crypto)
    ensures Authenticates(users, input, c) ==>
      exists u :: u in users && u.email == input.email && c.matches(input.password, u.passwordHash)
    ensures (forall u :: u in users ==> u.email != input.email) ==> !Authenticates(users, input, c)
  {
    var u := FindUserByEmail(users, input.email);
    u.Some? && c.matches(input.password, u.value.passwordHash)
  }

  /** The whole route. `body` is the parsed request body, or nothing when it
      is not JSON (`request.json()` throws and the route answers 500). */
  method Post(limiter: RateLimiter, db: Db, jar: CookieJar, c: Crypto, f: Formats, forwardedFor: Option<string>,
              body: Option<Json>, now: int, newHash: string, production: bool) returns (resp: Response)
    modifies limiter, db, jar
    ensures limiter.entries == Step(old(limiter.entries), LoginKey(forwardedFor), AuthRateLimit, now).0
    ensures db.users == old(db.users) && db.transcripts == old(db.transcripts) && db.tasks == old(db.tasks)
    ensures !LoginAllowed(old(limiter.entries), forwardedFor, now) ==> resp == TooManyLogins
    ensures LoginAllowed(old(limiter.entries), forwardedFor, now) && body.None? ==>
      resp == Unexpected
    ensures LoginAllowed(old(limiter.entries), forwardedFor, now) && body.Some? && LoginSchema(body.value, f).Invalid? ==>
      resp == ApiError("Validation failed", 400, Some(Grouped(LoginSchema(body.value, f).issues)))
    ensures LoginAllowed(old(limiter.entries), forwardedFor, now) && body.Some? && LoginSchema(body.value, f).Valid? ==>
      var input := LoginSchema(body.value, f).value;
      if !Authenticates(old(db.users), input, c) then resp == BadCredentials
      else
        var u := FindUserByEmail(old(db.users), input.email).value;
        var claims := Claims(u.id, u.email);
        resp == LoggedIn(u) &&
        db.refreshTokens == Rotate(old(db.refreshTokens), u.id, RefreshRoute.NewRecord(u.id, newHash, now)) &&
        jar.cookies == WithAuthCookies(old(jar.cookies), SignToken(c, Access, claims, now), SignToken(c, Refresh, claims, now), production)
    ensures resp.status != 200 ==> db.refreshTokens == old(db.refreshTokens) && jar.cookies == old(jar.cookies)
    ensures resp.status == 401 ==> resp == BadCredentials
  {
    var limit := limiter.Check(LoginKey(forwardedFor), AuthRateLimit, now);
    if !limit.success {
      return TooManyLogins;
    }
    if body.None? {
      return Unexpected;
    }
    var parsed := LoginSchema(body.value, f);
    if parsed.Invalid? {
      var errors := GroupIssues(parsed.issues);
      return ApiError("Validation failed", 400, Some(errors));
    }
    var input := parsed.value;
    var user := FindUserByEmail(db.users, input.email);
    if user.None? {
      return BadCredentials;
    }
    var isValid := c.matches(input.password, user.value.passwordHash);
    if !isValid {
      return BadCredentials;
    }
    var u := user.value;
    db.DeleteRefreshTokensOf(u.id);
    var accessToken := SignToken(c, Access, Claims(u.id, u.email), now);
    var refreshToken := SignToken(c, Refresh, Claims(u.id, u.email), now);
    db.CreateRefreshToken(RefreshRoute.NewRecord(u.id, newHash, now));
    jar.SetAuthCookies(accessToken, refreshToken, production);
    resp := LoggedIn(u);
  }

  /** After a login the user has exactly one refresh record, the new one;
      every other user's records are as they were. */
  lemma LoginLeavesOneSession(records: seq<RefreshRecord>, u: User, newHash: string, now: int, other: string)
    requires other != u.id
    ensures RecordsOf(Rotate(records, u.id, RefreshRoute.NewRecord(u.id, newHash, now)), u.id) ==
      [RefreshRecord(u.id, newHash, now + RefreshRecordLifetimeMs)]
    ensures RecordsOf(Rotate(records, u.id, RefreshRoute.NewRecord(u.id, newHash, now)), other) == RecordsOf(records, other)
  {
    RotateLeavesOne(records, u.id, RefreshRoute.NewRecord(u.id, newHash, now), u.id);
    RotateLeavesOne(records, u.id, RefreshRoute.NewRecord(u.id, newHash, now), other);
  }

  /** Logging in ends every earlier session of the user: a refresh token
      issued before matches nothing, provided the new hash accepts only the
      new token and the old token is not the new one. */
  lemma LoginEndsEarlierSessions(records: seq<RefreshRecord>, c: Crypto, u: User, oldToken: string,
                                 now: int, newHash: string, later: int)
    requires forall t :: c.matches(t, newHash) ==> t == SignToken(c, Refresh, Claims(u.id, u.email), now)
    requires oldToken != SignToken(c, Refresh, Claims(u.id, u.email), now)
    ensures !AnyMatch(LiveFor(Rotate(records, u.id, RefreshRoute.NewRecord(u.id, newHash, now)), u.id, later), oldToken, c.matches)
  {
    RotationIsSingleUse(records, u.id, RefreshRoute.NewRecord(u.id, newHash, now), oldToken, c.matches, later);
  }
}
